/** `AiService`: cleaning the model's text reply before it is parsed, and the
    checks each call makes on what the SDK returns. The SDK calls themselves
    and the `withTimeout` race are not modelled: a call is given as the
    `Reply` it settled to. */
module Ai {
  import opened Wrappers
  import opened JsText
  import opened Models

  const Fence: string := "```"
  const JsonFence: string := "```json"

  const MenuTimeoutMessage: string := "Menu generation timed out."
  const MenuEmptyMessage: string := "Failed to generate menu (empty response)."
  const RecipeTimeoutMessage: string := "Recipe detail generation timed out."
  const RecipeEmptyMessage: string := "Failed to generate recipe details (empty response)."
  const ImageFailedMessage: string := "Image generation failed"
  const DataUriPrefix: string := "data:image/jpeg;base64,"

  // ---------------------------------------------------------------------
  // cleanJson
  // ---------------------------------------------------------------------

  /** `text.replace(/```json/g, '').replace(/```/g, '').trim()`: the result
      holds no code fence and carries no surrounding white space. */
  function CleanJson(text: string): (r: string)
    ensures !Contains(r, Fence)
    ensures IsTrimmed(r)
  {
    var stripped := RemoveAll(RemoveAll(text, JsonFence), Fence);
    StripFenceLeavesNone(RemoveAll(text, JsonFence));
    TrimKeepsAbsent(stripped, Fence);
    Trim(stripped)
  }

  /** Trimming a text without `pat` leaves no `pat`. */
  lemma TrimKeepsAbsent(s: string, pat: string)
    requires !Contains(s, pat)
    ensures !Contains(Trim(s), pat)
  {
    var r := Trim(s);
    SliceKeepsAbsent(s, pat, TrimOffset(s), TrimOffset(s) + |r|);
  }

  /** A slice of a text without `pat` does not contain `pat` either. */
  lemma SliceKeepsAbsent(s: string, pat: string, a: nat, b: nat)
    requires a <= b <= |s|
    ensures !Contains(s, pat) ==> !Contains(s[a..b], pat)
  {
    if Contains(s[a..b], pat) {
      var i: nat :| i <= |s[a..b]| && OccursAt(s[a..b], pat, i);
      forall k | 0 <= k < |pat|
        ensures s[a + i..a + i + |pat|][k] == pat[k]
      {
        assert s[a + i..a + i + |pat|][k] == s[a..b][i + k];
        assert pat[k] == s[a..b][i..i + |pat|][k];
      }
      assert s[a + i..a + i + |pat|] == pat;
      assert OccursAt(s, pat, a + i);
    }
  }

  /** Putting one character in front of a fence-free text creates a fence
      only when that character and the next two are backticks. */
  lemma ConsKeepsNoFence(c: char, t: string)
    ensures !Contains(t, Fence) && !(c == '`' && |t| >= 2 && t[0] == '`' && t[1] == '`')
      ==> !Contains([c] + t, Fence)
  {
    if Contains([c] + t, Fence) && !Contains(t, Fence) {
      var i: nat :| i <= |[c] + t| && OccursAt([c] + t, Fence, i);
      if i > 0 {
        assert t[i - 1..i - 1 + 3] == ([c] + t)[i..i + 3];
        assert OccursAt(t, Fence, i - 1);
      } else {
        var u := [c] + t;
        assert u[0..3] == Fence;
        assert u[0] == Fence[0] && u[1] == Fence[1] && u[2] == Fence[2];
        assert u[1] == t[0] && u[2] == t[1];
      }
    }
  }

  /** What fence removal leaves starts with as many backticks (up to two) as
      the original text did. */
  lemma {:induction false} StripFenceHead(s: string)
    ensures var r := RemoveAll(s, Fence);
      |r| > 0 && r[0] == '`' ==> |s| > 0 && s[0] == '`'
    ensures var r := RemoveAll(s, Fence);
      |r| > 1 && r[0] == '`' && r[1] == '`' ==> |s| > 1 && s[0] == '`' && s[1] == '`'
    decreases |s|
  {
    if |s| == 0 {
    } else if Fence <= s {
      assert s[0] == Fence[0] && s[1] == Fence[1];
    } else {
      StripFenceHead(s[1..]);
      assert RemoveAll(s, Fence) == [s[0]] + RemoveAll(s[1..], Fence);
    }
  }

  /** Removing every fence from left to right cannot join the remaining
      backticks into a new fence. */
  lemma {:induction false} StripFenceLeavesNone(s: string)
    ensures !Contains(RemoveAll(s, Fence), Fence)
    decreases |s|
  {
    if |s| == 0 {
      assert !OccursAt([], Fence, 0);
    } else if Fence <= s {
      StripFenceLeavesNone(s[|Fence|..]);
    } else {
      var rest := RemoveAll(s[1..], Fence);
      StripFenceLeavesNone(s[1..]);
      StripFenceHead(s[1..]);
      BackticksStartFence(s);
      ConsKeepsNoFence(s[0], rest);
      assert RemoveAll(s, Fence) == [s[0]] + rest;
    }
  }

  /** Three leading backticks are a fence. */
  lemma BackticksStartFence(s: string)
    ensures |s| > 2 && s[0] == '`' && s[1] == '`' && s[2] == '`' ==> Fence <= s
  {
    if |s| > 2 && s[0] == '`' && s[1] == '`' && s[2] == '`' {
      assert s[..3] == Fence;
    }
  }

  /** Every "```json" starts with a fence. */
  lemma JsonFenceHasFence(s: string)
    ensures Contains(s, JsonFence) ==> Contains(s, Fence)
  {
    if Contains(s, JsonFence) {
      var i: nat :| i <= |s| && OccursAt(s, JsonFence, i);
      assert s[i..i + 3] == s[i..i + 7][..3];
      assert OccursAt(s, Fence, i);
    }
  }

  /** A text without any backtick holds no fence. */
  lemma NoBacktickNoFence(s: string)
    ensures '`' !in s ==> !Contains(s, Fence)
  {
    if Contains(s, Fence) {
      var i: nat :| i <= |s| && OccursAt(s, Fence, i);
      assert s[i] == s[i..i + 3][0];
    }
  }

  /** Cleaning an already cleaned text changes nothing. */
  lemma {:induction false} CleanJsonIdempotent(text: string)
    ensures CleanJson(CleanJson(text)) == CleanJson(text)
  {
    var c := CleanJson(text);
    JsonFenceHasFence(c);
    RemoveAllAbsent(c, JsonFence);
    RemoveAllAbsent(c, Fence);
    TrimTrimmed(c);
  }

  /** A reply with no backtick and no surrounding white space is passed to
      the parser as it is. */
  lemma {:induction false} CleanJsonKeepsPlain(text: string)
    requires '`' !in text && IsTrimmed(text)
    ensures CleanJson(text) == text
  {
    NoBacktickNoFence(text);
    JsonFenceHasFence(text);
    RemoveAllAbsent(text, JsonFence);
    RemoveAllAbsent(text, Fence);
    TrimTrimmed(text);
  }

  lemma FencedExampleOpening()
    ensures RemoveAll("```json\n{}\n```", JsonFence) == "\n{}\n```"
  {
    var text := "```json\n{}\n```";
    assert JsonFence <= text;
    assert text[7..] == "\n{}\n```";
    var t := "\n{}\n```";
    JsonFenceAbsent(t);
    RemoveAllAbsent(t, JsonFence);
  }

  /** The text after the opening fence holds no further "```json". */
  lemma JsonFenceAbsent(t: string)
    requires t == "\n{}\n```"
    ensures !Contains(t, JsonFence)
  {
    forall i: nat | i <= |t|
      ensures !OccursAt(t, JsonFence, i)
    {
      if i == 0 {
        assert t[0] != JsonFence[0];
      }
    }
  }

  lemma FencedExampleClosing(t: string)
    requires t == "\n{}\n```"
    ensures RemoveAll(t, Fence) == "\n{}\n"
  {
    var plain := "\n{}\n";
    assert t == plain + Fence;
    assert RemoveAll(Fence, Fence) == [] by {
      assert Fence[3..] == [];
    }
    KeepsPlainPrefix(plain, Fence);
    assert plain + [] == plain;
  }

  /** Text without a backtick in front of the rest is kept as it is. */
  lemma {:induction false} KeepsPlainPrefix(plain: string, s: string)
    requires '`' !in plain
    ensures RemoveAll(plain + s, Fence) == plain + RemoveAll(s, Fence)
    decreases |plain|
  {
    if plain != [] {
      var u := plain + s;
      var rest := RemoveAll(s, Fence);
      assert RemoveAll(u, Fence) == [plain[0]] + RemoveAll(u[1..], Fence) by {
        assert u[0] == plain[0] && Fence[0] == '`';
        assert !(Fence <= u);
      }
      assert RemoveAll(u[1..], Fence) == plain[1..] + rest by {
        assert u[1..] == plain[1..] + s;
        KeepsPlainPrefix(plain[1..], s);
      }
      assert [plain[0]] + (plain[1..] + rest) == plain + rest;
    } else {
      assert plain + s == s;
    }
  }

  /** A fenced reply is reduced to the JSON inside the fence. */
  lemma {:induction false} CleanJsonFencedExample()
    ensures CleanJson("```json\n{}\n```") == "{}"
  {
    FencedExampleOpening();
    FencedExampleClosing("\n{}\n```");
    FencedExampleTrim();
  }

  lemma FencedExampleTrim()
    ensures Trim("\n{}\n") == "{}"
  {
    FencedExampleTrimStart();
    FencedExampleTrimEnd();
  }

  lemma FencedExampleTrimStart()
    ensures TrimStart("\n{}\n") == "{}\n"
  {
    var s := "\n{}\n";
    assert s[1..] == "{}\n";
    assert !IsWhitespace('{');
    assert TrimStart(s[1..]) == s[1..];
  }

  lemma FencedExampleTrimEnd()
    ensures TrimEnd("{}\n") == "{}"
  {
    var s := "{}\n";
    assert s[..2] == "{}";
    assert !IsWhitespace('}');
    assert TrimEnd(s[..2]) == s[..2];
  }

  // ---------------------------------------------------------------------
  // Checks after each call
  // ---------------------------------------------------------------------

  /** What an awaited SDK call settled to: a response, the rejection raised
      by `withTimeout`, or a rejection raised by the SDK itself. */
  datatype Reply<T> = Responded(response: T) | TimedOut | Failed(message: string)

  /** The steps shared by `generateMenu` and `generateRecipe`: a timeout and
      an SDK failure reject with their messages, an absent or empty
      `response.text` rejects with `emptyMessage`, and only a non-empty text
      reaches `JSON.parse`, after cleaning. */
  function ParsedReply<T>(reply: Reply<Option<string>>, timeoutMessage: string, emptyMessage: string,
                          parse: string -> Outcome<T>): (r: Outcome<T>)
    ensures reply.TimedOut? ==> r == Err(timeoutMessage)
    ensures reply.Failed? ==> r == Err(reply.message)
    ensures reply.Responded? && reply.response.GetOr("") == "" ==> r == Err(emptyMessage)
    ensures reply.Responded? && reply.response.GetOr("") != "" ==>
              r == parse(CleanJson(reply.response.value))
    ensures r.Ok? ==> reply.Responded? && reply.response.GetOr("") != ""
  {
    match reply
    case TimedOut => Err(timeoutMessage)
    case Failed(message) => Err(message)
    case Responded(text) =>
      if text.GetOr("") == "" then Err(emptyMessage)
      else parse(CleanJson(text.value))
  }

  /** `generateMenu` once its call has settled. */
  function MenuResult(reply: Reply<Option<string>>, parse: string -> Outcome<GeneratedMenu>): (r: Outcome<GeneratedMenu>)
    ensures reply.TimedOut? ==> r == Err(MenuTimeoutMessage)
    ensures reply.Failed? ==> r == Err(reply.message)
    ensures reply.Responded? && reply.response.GetOr("") == "" ==> r == Err(MenuEmptyMessage)
    ensures reply.Responded? && reply.response.GetOr("") != "" ==>
              r == parse(CleanJson(reply.response.value))
    ensures r.Ok? ==> reply.Responded? && reply.response.GetOr("") != ""
  {
    ParsedReply(reply, MenuTimeoutMessage, MenuEmptyMessage, parse)
  }

  /** `generateRecipe` once its call has settled. */
  function RecipeResult(reply: Reply<Option<string>>, parse: string -> Outcome<Recipe>): (r: Outcome<Recipe>)
    ensures reply.TimedOut? ==> r == Err(RecipeTimeoutMessage)
    ensures reply.Failed? ==> r == Err(reply.message)
    ensures reply.Responded? && reply.response.GetOr("") == "" ==> r == Err(RecipeEmptyMessage)
    ensures reply.Responded? && reply.response.GetOr("") != "" ==>
              r == parse(CleanJson(reply.response.value))
    ensures r.Ok? ==> reply.Responded? && reply.response.GetOr("") != ""
  {
    ParsedReply(reply, RecipeTimeoutMessage, RecipeEmptyMessage, parse)
  }

  /** The parts of an image response that are read; each may be missing. */
  datatype ImageData = ImageData(imageBytes: Option<string>)
  datatype GeneratedImage = GeneratedImage(image: Option<ImageData>)
  datatype ImageResponse = ImageResponse(generatedImages: Option<seq<GeneratedImage>>)

  /** `response.generatedImages?.[0]?.image?.imageBytes`. */
  function FirstImageBytes(response: ImageResponse): (r: Option<string>)
    ensures r.Some? <==> response.generatedImages.Some? && |response.generatedImages.value| > 0
                         && response.generatedImages.value[0].image.Some?
                         && response.generatedImages.value[0].image.value.imageBytes.Some?
  {
    match response.generatedImages
    case None => None
    case Some(images) =>
      if |images| == 0 then None
      else match images[0].image
        case None => None
        case Some(data) => data.imageBytes
  }

  /** `generateImage` once its call has settled: a data URI around non-empty
      bytes, and otherwise one fixed error whatever went wrong. */
  function ImageResult(reply: Reply<ImageResponse>): (r: Outcome<string>)
    ensures r.Ok? <==> reply.Responded? && FirstImageBytes(reply.response).GetOr("") != ""
    ensures r.Ok? ==> DataUriPrefix <= r.value
                      && r.value[|DataUriPrefix|..] == FirstImageBytes(reply.response).GetOr("")
    ensures r.Err? ==> r.message == ImageFailedMessage
  {
    match reply
    case Responded(response) =>
      var bytes := FirstImageBytes(response).GetOr("");
      if bytes == "" then Err(ImageFailedMessage)
      else Ok(DataUriPrefix + bytes)
    case _ => Err(ImageFailedMessage)
  }
}
