/** The analysis client and the key resolver. The network call, the file reader and `JSON.parse`
    are inputs: the response arrives as a value and parsing is a partial function passed in. */
module Gemini {
  import opened Wrappers
  import opened Text
  import opened Types
  import Lists

  /* ---------------- Key resolution: build-time value, else the stored one ---------------- */

  /** The local-storage key of the credential. */
  const ApiKeyStorageKey: string := "nutrilens_gemini_api_key"

  /** `getEnvApiKey`: the build-time value, trimmed, when it is a string that is not blank. */
  function EnvApiKey(env: Option<string>): (r: Option<string>)
    ensures r.Some? <==> env.Some? && !AllSpace(env.value)
    ensures r.Some? ==> r.value == Trim(env.value) && IsTrimmed(r.value) && r.value != ""
  {
    if env.Some? then
      TrimEmptyIffAllSpace(env.value);
      if Trim(env.value) != "" then Some(Trim(env.value)) else None
    else None
  }

  /** `getStoredApiKey`: the build-time key when there is one, else whatever the slot holds (untrimmed). */
  function ResolveKey(env: Option<string>, stored: Option<string>): (r: Option<string>)
    ensures r == stored || r == EnvApiKey(env)
    ensures r.None? <==> stored.None? && EnvApiKey(env).None?
  {
    if EnvApiKey(env).Some? then EnvApiKey(env) else stored
  }

  /** A build-time key that resolves is trimmed and not blank, and it wins over the stored value. */
  lemma EnvKeyWins(env: Option<string>, stored: Option<string>)
    requires env.Some? && !AllSpace(env.value)
    ensures ResolveKey(env, stored) == Some(Trim(env.value))
    ensures IsTrimmed(Trim(env.value)) && Trim(env.value) != ""
  {
    TrimEmptyIffAllSpace(env.value);
  }

  /** An absent or all-white-space build-time value counts as no key, and the stored value is used. */
  lemma BlankEnvFallsBack(env: Option<string>, stored: Option<string>)
    requires env.None? || AllSpace(env.value)
    ensures EnvApiKey(env) == None
    ensures ResolveKey(env, stored) == stored
  {
    if env.Some? { TrimEmptyIffAllSpace(env.value); }
  }

  /** `isEnvApiKey`. */
  function IsEnvApiKey(env: Option<string>): (b: bool)
    ensures b <==> env.Some? && !AllSpace(env.value)
  {
    EnvApiKey(env).Some?
  }

  /** With no build-time key, a key that was stored is the key that resolves. */
  lemma StoredKeyResolves(env: Option<string>, k: string)
    requires !IsEnvApiKey(env)
    ensures ResolveKey(env, Some(k)) == Some(k)
  {
  }

  /** The credential slot in local storage next to the build-time value. A failed `setItem` or
      `removeItem` is an input (`writeOk`, `removeOk`); either way nothing is thrown. */
  class KeyStore {
    const env: Option<string>
    var stored: Option<string>

    constructor (env: Option<string>, stored: Option<string>)
      ensures this.env == env && this.stored == stored
    {
      this.env := env;
      this.stored := stored;
    }

    /** `getStoredApiKey`. */
    function GetStoredApiKey(): Option<string>
      reads this
    {
      ResolveKey(env, stored)
    }

    /** `storeApiKey`: writes the key as given; a failed write leaves the slot as it was. */
    method StoreApiKey(key: string, writeOk: bool)
      modifies this
      ensures stored == if writeOk then Some(key) else old(stored)
      ensures writeOk && !IsEnvApiKey(env) ==> GetStoredApiKey() == Some(key)
    {
      if writeOk {
        stored := Some(key);
      }
    }

    /** `clearApiKey`: removes the slot; a failed removal leaves it as it was. */
    method ClearApiKey(removeOk: bool)
      modifies this
      ensures stored == if removeOk then None else old(stored)
      ensures removeOk ==> GetStoredApiKey() == EnvApiKey(env)
    {
      if removeOk {
        stored := None;
      }
    }
  }

  /* ---------------- The request payload ---------------- */

  /** The `inline_data` part of the request: media type and base64 payload (`undefined` when absent). */
  datatype InlineData = InlineData(mimeType: string, data: Option<string>)

  /** `file.type || "image/jpeg"`. */
  function MediaType(file: ImageFile): (r: string)
    ensures r != ""
    ensures file.mediaType != "" ==> r == file.mediaType
    ensures file.mediaType == "" ==> r == "image/jpeg"
  {
    if file.mediaType == "" then "image/jpeg" else file.mediaType
  }

  /** The text after the first comma of `s`; absent when `s` has none. */
  function AfterFirstComma(s: string): (r: Option<string>)
    ensures r.None? <==> ',' !in s
    ensures r.Some? ==> |r.value| < |s| && r.value == s[|s| - |r.value|..]
    ensures r.Some? ==> s[|s| - |r.value| - 1] == ',' && ',' !in s[..|s| - |r.value| - 1]
    decreases |s|
  {
    if s == [] then None
    else if s[0] == ',' then Some(s[1..])
    else
      var r := AfterFirstComma(s[1..]);
      assert r.Some? ==> s[..|s| - |r.value| - 1] == [s[0]] + s[1..][..|s[1..]| - |r.value| - 1];
      r
  }

  /** The text of `s` up to its first comma, or all of it. */
  function UpToComma(s: string): (r: string)
    ensures |r| <= |s| && r == s[..|r|] && ',' !in r
    ensures |r| == |s| || s[|r|] == ','
    decreases |s|
  {
    if s == [] || s[0] == ',' then [] else [s[0]] + UpToComma(s[1..])
  }

  /** `dataUrl.split(",")[1]`: the field between the first comma and the next one, or the end. */
  function Base64Part(dataUrl: string): (r: Option<string>)
    ensures r.None? <==> ',' !in dataUrl
    ensures r.Some? ==> ',' !in r.value
  {
    match AfterFirstComma(dataUrl)
    case None => None
    case Some(rest) => Some(UpToComma(rest))
  }

  /** For a data URL `<header>,<payload>` with a single comma the payload is everything after it. */
  lemma Base64OfDataUrl(header: string, payload: string)
    requires ',' !in header && ',' !in payload
    ensures Base64Part(header + "," + payload) == Some(payload)
  {
    var s := header + "," + payload;
    var a := AfterFirstComma(s);
    assert s[|header|] == ',';
    assert s[..|header|] == header;
    assert a.Some?;
    var k := |s| - |a.value| - 1;
    assert k == |header|;
    assert a.value == payload;
    var u := UpToComma(payload);
    assert |u| == |payload|;
    assert u == payload;
  }

  /** The payload sent for a file read as `dataUrl`. */
  function RequestPart(file: ImageFile, dataUrl: string): (r: InlineData)
    ensures r.mimeType != "" && (file.mediaType != "" ==> r.mimeType == file.mediaType)
    ensures file.mediaType == "" ==> r.mimeType == "image/jpeg"
    ensures r.data.None? <==> ',' !in dataUrl
    ensures r.data.Some? ==> ',' !in r.data.value
  {
    InlineData(MediaType(file), Base64Part(dataUrl))
  }

  /* ---------------- The response ---------------- */

  /** What the network returned: the status, the body text (read on the error path), and
      `candidates[0].content.parts[0].text` of the JSON body (read on the success path). */
  datatype HttpResponse = HttpResponse(status: nat, body: string, text: Option<string>)

  /** `response.ok`. */
  predicate IsOk(status: nat) {
    200 <= status <= 299
  }

  // Each message is split into shorter literals so that lemmas can assert its single characters.
  const BadRequestMessage: string := "Invalid request — please check " + "your API key and try again."
  const ForbiddenMessage: string := "API key is invalid or does not " + "have permission to use AI vision."
  const RateLimitMessage: string := "Rate limit exceeded — please wait " + "a moment and try again."
  const NoResponseMessage: string := "No response received from AI. " + "Please try again."
  const FormatMessage: string := "AI returned an unexpected response " + "format. Please try again."
  const GenericPrefix: string := "API error ("

  /** How many characters of the body an error message quotes. */
  const BodyQuoteLength: nat := 200

  /** The decimal digit for `d`. */
  function DigitChar(d: nat): (c: char)
    requires d < 10
    ensures '0' <= c <= '9' && c as int - '0' as int == d
  {
    ('0' as int + d) as char
  }

  predicate IsDigits(s: string) {
    forall i :: 0 <= i < |s| ==> '0' <= s[i] <= '9'
  }

  /** A number in a template literal: its decimal digits. */
  function DecimalString(n: nat): (r: string)
    ensures |r| >= 1 && IsDigits(r)
    ensures n >= 10 ==> r[0] != '0'
    decreases n
  {
    if n < 10 then [DigitChar(n)] else DecimalString(n / 10) + [DigitChar(n % 10)]
  }

  /** The number a string of decimal digits denotes. */
  function DecimalValue(s: string): nat
    requires IsDigits(s)
    decreases |s|
  {
    if s == [] then 0 else DecimalValue(s[..|s| - 1]) * 10 + (s[|s| - 1] as int - '0' as int)
  }

  /** The digits in a message read back as the status they were made from. */
  lemma {:induction false} DecimalRoundTrip(n: nat)
    ensures DecimalValue(DecimalString(n)) == n
    decreases n
  {
    if n >= 10 {
      DecimalRoundTrip(n / 10);
      var s := DecimalString(n);
      assert s[..|s| - 1] == DecimalString(n / 10);
    }
  }

  /** The message thrown for a response that is not OK. */
  function StatusMessage(status: nat, body: string): (r: string)
    ensures StartsWith(r, GenericPrefix) <==> status !in {400, 403, 429}
  {
    if status == 400 then
      assert BadRequestMessage[0] != GenericPrefix[0];
      BadRequestMessage
    else if status == 403 then
      assert ForbiddenMessage[4] != GenericPrefix[4];
      ForbiddenMessage
    else if status == 429 then
      assert RateLimitMessage[0] != GenericPrefix[0];
      RateLimitMessage
    else GenericPrefix + DecimalString(status) + "): " + Lists.Truncate(body, BodyQuoteLength)
  }

  /** Any other status yields "API error (<status>): " followed by at most the first 200 characters of the body. */
  lemma GenericStatusMessage(status: nat, body: string)
    requires status !in {400, 403, 429}
    ensures var head := GenericPrefix + DecimalString(status) + "): ";
      var msg := StatusMessage(status, body);
      && StartsWith(msg, head)
      && |msg| - |head| <= BodyQuoteLength
      && StartsWith(body, msg[|head|..])
      && (|body| <= BodyQuoteLength ==> msg[|head|..] == body)
      && (|body| > BodyQuoteLength ==> msg[|head|..] == body[..BodyQuoteLength])
    ensures DecimalValue(DecimalString(status)) == status
  {
    DecimalRoundTrip(status);
  }

  /** The five failures of the client have five different messages: 400, 403, 429, any other status,
      a missing reply text and an unparseable reply are told apart by their message alone. */
  lemma FailureMessagesDistinct(s1: nat, b1: string, s2: nat, b2: string)
    requires s1 != s2 && s1 in {400, 403, 429}
    ensures StatusMessage(s1, b1) != StatusMessage(s2, b2)
    ensures StatusMessage(s1, b1) != NoResponseMessage && StatusMessage(s1, b1) != FormatMessage
    ensures StatusMessage(s2, b2) != NoResponseMessage && StatusMessage(s2, b2) != FormatMessage
    ensures NoResponseMessage != FormatMessage
  {
    var m1, m2 := StatusMessage(s1, b1), StatusMessage(s2, b2);
    assert NoResponseMessage[0] == 'N' && FormatMessage[1] == 'I' && FormatMessage[4] == 'e';
    if s1 == 400 {
      assert m1[0] == 'I';
    } else if s1 == 403 {
      assert m1 == ForbiddenMessage && m1[4] == 'k';
    } else {
      assert m1[0] == 'R';
    }
    if s2 == 400 {
      assert m2[0] == 'I';
    } else if s2 == 403 {
      assert m2 == ForbiddenMessage && m2[4] == 'k';
    } else if s2 == 429 {
      assert m2[0] == 'R';
    } else {
      assert m2[0] == 'A' && m2[1] == 'P' && m2[4] == 'e';
    }
  }

  /* ---------------- Code-fence cleaning ---------------- */

  const Fence: string := "```"

  /** The first `replace` of the chain, with the case-insensitive pattern "start of text, three backticks,
      `json`, white space": a leading fence tagged `json` in any case, and the white space after it. */
  function StripJsonOpening(s: string): (r: string)
    ensures |r| <= |s|
    ensures !StartsWith(s, Fence) ==> r == s
    ensures r != s ==> r == [] || !IsSpace(r[0])
  {
    if StartsWith(s, Fence) && |s| >= 7 && EqualsIgnoreCase(s[3..7], "json") then TrimStart(s[7..]) else s
  }

  /** The second `replace`, with the pattern "start of text, three backticks, white space": a leading
      fence and the white space after it. */
  function StripOpening(s: string): (r: string)
    ensures |r| <= |s|
    ensures !StartsWith(s, Fence) ==> r == s
    ensures r != s ==> r == [] || !IsSpace(r[0])
  {
    if StartsWith(s, Fence) then TrimStart(s[3..]) else s
  }

  /** `replace(/\s*```$/i, "")`: the leftmost match is the final fence together with all the white
      space immediately before it. */
  function StripClosing(s: string): (r: string)
    ensures |r| <= |s|
    ensures !EndsWith(s, Fence) ==> r == s
    ensures r != s ==> r == [] || !IsSpace(r[|r| - 1])
  {
    if EndsWith(s, Fence) then TrimEnd(s[..|s| - 3]) else s
  }

  /** The whole chain, ending in `trim()`. */
  function CleanFences(text: string): (r: string)
    ensures IsTrimmed(r)
  {
    Trim(StripClosing(StripOpening(StripJsonOpening(text))))
  }

  /** A reply without fences is only trimmed. */
  lemma UnfencedIsTrimmed(text: string)
    requires !StartsWith(text, Fence) && !EndsWith(text, Fence)
    ensures CleanFences(text) == Trim(text)
  {
  }

  /** An opening fence tagged `json` in any case, and the line break after it, go. */
  lemma StripJsonOpeningOfWrapped(tag: string, body: string)
    requires EqualsIgnoreCase(tag, "json")
    requires body != [] && IsTrimmed(body)
    ensures StripJsonOpening(Fence + tag + "\n" + body + "\n```") == body + "\n```"
  {
    var wrapped := Fence + tag + "\n" + body + "\n```";
    var t := body + "\n```";
    assert wrapped == Fence + tag + ("\n" + t);
    assert wrapped[..3] == Fence && wrapped[3..7] == tag;
    assert wrapped[7..] == "\n" + t;
    TrimStartSkipsSpace("\n", t);
    assert t[0] == body[0];
  }

  /** What is left does not start with a fence, because the body does not. */
  lemma StripOpeningOfBodyAndFence(body: string)
    requires !StartsWith(body, Fence)
    ensures StripOpening(body + "\n```") == body + "\n```"
  {
    var t := body + "\n```";
    assert !StartsWith(t, Fence) by {
      if |body| >= 3 {
        assert t[..3] == body[..3];
      } else {
        assert t[..3][|body|] == '\n';
      }
    }
  }

  /** The closing fence and the line break before it go. */
  lemma StripClosingOfBodyAndFence(body: string)
    requires IsTrimmed(body)
    ensures StripClosing(body + "\n```") == body
  {
    var t := body + "\n```";
    assert t[|t| - 3..] == Fence;
    assert t[..|t| - 3] == body + "\n";
    TrimEndSkipsSpace(body, "\n");
    TrimOfTrimmed(body);
  }

  /** A trimmed, unfenced body wrapped in an opening fence tagged `json` in any case and a closing
      fence cleans to the body itself. */
  lemma AnyCaseTagCleansToBody(tag: string, body: string)
    requires EqualsIgnoreCase(tag, "json")
    requires IsTrimmed(body)
    requires !StartsWith(body, Fence) && !EndsWith(body, Fence)
    ensures CleanFences(Fence + tag + "\n" + body + "\n```") == body
  {
    if body == [] {
      // The line breaks on both sides meet: the opening step leaves only the closing fence,
      // which the plain-fence step then removes.
      var wrapped := Fence + tag + "\n" + body + "\n```";
      assert wrapped == Fence + tag + ("\n\n" + Fence);
      assert wrapped[..3] == Fence && wrapped[3..7] == tag;
      assert wrapped[7..] == "\n\n" + Fence;
      TrimStartSkipsSpace("\n\n", Fence);
      assert StripJsonOpening(wrapped) == Fence;
      assert Fence[3..] == [];
      assert StripOpening(Fence) == [];
      return;
    }
    StripJsonOpeningOfWrapped(tag, body);
    StripOpeningOfBodyAndFence(body);
    StripClosingOfBodyAndFence(body);
    TrimOfTrimmed(body);
  }

  /** A trimmed, unfenced body wrapped in an untagged opening fence and a closing fence cleans to the
      body itself: the `json` step does not apply, and the plain-fence step removes the opening. */
  lemma PlainFenceCleansToBody(body: string)
    requires IsTrimmed(body)
    requires !StartsWith(body, Fence) && !EndsWith(body, Fence)
    ensures CleanFences("```\n" + body + "\n```") == body
  {
    var wrapped := "```\n" + body + "\n```";
    var t := body + "\n```";
    assert wrapped == Fence + ("\n" + t);
    assert wrapped[..3] == Fence;
    assert wrapped[3] == '\n';
    assert !EqualsIgnoreCase(wrapped[3..7], "json") by {
      assert wrapped[3..7][0] == '\n';
      assert LowerAscii('j') == 'j';
    }
    assert StripJsonOpening(wrapped) == wrapped;
    assert wrapped[3..] == "\n" + t;
    TrimStartSkipsSpace("\n", t);
    if body == [] {
      assert wrapped[3..] == "\n\n" + Fence;
      TrimStartSkipsSpace("\n\n", Fence);
      assert StripOpening(wrapped) == Fence;
      assert Fence[3..] == [];
      assert StripOpening(Fence) == [];
      assert StripClosing([]) == [];
    } else {
      assert t[0] == body[0];
      assert StripOpening(wrapped) == t;
      StripClosingOfBodyAndFence(body);
      TrimOfTrimmed(body);
    }
  }

  /** A trimmed, unfenced body wrapped as "```json\n" + body + "\n```" cleans to the body itself,
      which is also what the bare body cleans to. */
  lemma FencedCleansToBody(body: string)
    requires IsTrimmed(body)
    requires !StartsWith(body, Fence) && !EndsWith(body, Fence)
    ensures CleanFences("```json\n" + body + "\n```") == body
    ensures CleanFences(body) == body
  {
    assert "```json\n" + body + "\n```" == Fence + "json" + "\n" + body + "\n```";
    AnyCaseTagCleansToBody("json", body);
    TrimOfTrimmed(body);
    UnfencedIsTrimmed(body);
  }

  /* ---------------- After the fetch ---------------- */

  /** Everything `analyzeImage` does once the response is in: the status is classified, a missing or
      empty reply text is its own failure, the text is cleaned of fences and parsed, and whatever
      parses is returned unchanged. */
  function ReadReply(response: HttpResponse, parse: string -> Option<AIResponse>): (r: Result<AIResponse>)
    ensures r.Success? <==> IsOk(response.status) && response.text.Some? && response.text.value != ""
                            && parse(CleanFences(response.text.value)).Some?
    ensures r.Success? ==> parse(CleanFences(response.text.value)) == Some(r.value)
    ensures !IsOk(response.status) ==> r == Failure(StatusMessage(response.status, response.body))
  {
    if !IsOk(response.status) then Failure(StatusMessage(response.status, response.body))
    else if response.text.None? || response.text.value == "" then Failure(NoResponseMessage)
    else
      match parse(CleanFences(response.text.value))
      case None => Failure(FormatMessage)
      case Some(v) => Success(v)
  }

  /** A response that is not OK fails on its status and body alone: the reply text and the parser
      are never consulted. */
  lemma NotOkIgnoresReply(response: HttpResponse, text: Option<string>, p1: string -> Option<AIResponse>, p2: string -> Option<AIResponse>)
    requires !IsOk(response.status)
    ensures ReadReply(response, p1) == ReadReply(response.(text := text), p2)
    ensures ReadReply(response, p1).Failure?
  {
  }

  /** An OK response without reply text fails with the "no response" message, whatever the parser does. */
  lemma MissingTextIsNoResponse(response: HttpResponse, parse: string -> Option<AIResponse>)
    requires IsOk(response.status) && (response.text == None || response.text == Some(""))
    ensures ReadReply(response, parse) == Failure(NoResponseMessage)
    ensures ReadReply(response, parse) != Failure(FormatMessage)
  {
    FailureMessagesDistinct(400, "", 403, "");
  }

  /** Reply text that parses is returned exactly as parsed, with no check of its fields;
      text that does not parse is the "unexpected format" failure. */
  lemma ParsedPassesThrough(response: HttpResponse, parse: string -> Option<AIResponse>)
    requires IsOk(response.status) && response.text.Some? && response.text.value != ""
    ensures var parsed := parse(CleanFences(response.text.value));
      && (parsed.Some? ==> ReadReply(response, parse) == Success(parsed.value))
      && (parsed.None? ==> ReadReply(response, parse) == Failure(FormatMessage))
  {
  }

  /** A reply wrapped in a fence, tagged `json` in any case or untagged, reads exactly as the same
      reply unwrapped. */
  lemma FencedReplyReadsLikeBare(response: HttpResponse, tag: string, body: string, parse: string -> Option<AIResponse>)
    requires EqualsIgnoreCase(tag, "json")
    requires body != [] && IsTrimmed(body) && !StartsWith(body, Fence) && !EndsWith(body, Fence)
    ensures ReadReply(response.(text := Some(Fence + tag + "\n" + body + "\n```")), parse)
         == ReadReply(response.(text := Some(body)), parse)
    ensures ReadReply(response.(text := Some("```\n" + body + "\n```")), parse)
         == ReadReply(response.(text := Some(body)), parse)
  {
    var bare := response.(text := Some(body));
    FencedCleansToBody(body);
    AnyCaseTagCleansToBody(tag, body);
    SameCleanedTextReadsAlike(response.(text := Some(Fence + tag + "\n" + body + "\n```")), bare, parse);
    PlainFenceCleansToBody(body);
    SameCleanedTextReadsAlike(response.(text := Some("```\n" + body + "\n```")), bare, parse);
  }

  /** Two responses that differ only in reply texts that are both non-empty and clean to the same
      string read alike. */
  lemma SameCleanedTextReadsAlike(r1: HttpResponse, r2: HttpResponse, parse: string -> Option<AIResponse>)
    requires r1.status == r2.status && r1.body == r2.body
    requires r1.text.Some? && r2.text.Some? && r1.text.value != "" && r2.text.value != ""
    requires CleanFences(r1.text.value) == CleanFences(r2.text.value)
    ensures ReadReply(r1, parse) == ReadReply(r2, parse)
  {
  }

  /** `analyzeImage`: sends the file's media type and base64 payload, then reads the reply step by step,
      throwing (here: returning `Failure`) at the first step that fails. `fetch` stands for the network
      and `parse` for `JSON.parse` (`None` when it throws). */
  method AnalyzeImage(file: ImageFile, dataUrl: string, fetch: InlineData -> HttpResponse, parse: string -> Option<AIResponse>)
    returns (sent: InlineData, r: Result<AIResponse>)
    ensures sent.mimeType == MediaType(file) && sent.data == Base64Part(dataUrl)
    ensures r == ReadReply(fetch(sent), parse)
  {
    sent := RequestPart(file, dataUrl);
    var response := fetch(sent);
    if !IsOk(response.status) {
      if response.status == 400 {
        return sent, Failure(BadRequestMessage);
      }
      if response.status == 403 {
        return sent, Failure(ForbiddenMessage);
      }
      if response.status == 429 {
        return sent, Failure(RateLimitMessage);
      }
      var quoted := if |response.body| <= BodyQuoteLength then response.body else response.body[..BodyQuoteLength];
      return sent, Failure(GenericPrefix + DecimalString(response.status) + "): " + quoted);
    }
    var text := response.text;
    if text.None? || text.value == "" {
      return sent, Failure(NoResponseMessage);
    }
    var cleaned := CleanFences(text.value);
    var parsed := parse(cleaned);
    if parsed.None? {
      return sent, Failure(FormatMessage);
    }
    r := Success(parsed.value);
  }
}
