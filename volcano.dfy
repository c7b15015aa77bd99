// The transcription client (services/volcanoService.ts): the chunked
// byte-to-binary-string conversion before Base64 encoding, the missing-key
// guard, the clean-up of the model's reply, the array check and the sort
// of the returned segments by start time.

module Volcano {
  import opened Types
  import opened JsString

  newtype byte = x: int | 0 <= x < 256

  /** Bytes handed to `String.fromCharCode` per call. */
  const ChunkSize: nat := 8192

  /** One character per byte, with the byte as its code. */
  function Latin1(bytes: seq<byte>): (s: string)
    ensures |s| == |bytes| && forall k :: 0 <= k < |bytes| ==> s[k] as int == bytes[k] as int
  {
    seq(|bytes|, k requires 0 <= k < |bytes| => bytes[k] as int as char)
  }

  /** Distinct byte strings give distinct binary strings: the conversion
      loses nothing before `btoa`. */
  lemma Latin1Injective(a: seq<byte>, b: seq<byte>)
    requires Latin1(a) == Latin1(b)
    ensures a == b
  {
    forall k | 0 <= k < |a| ensures a[k] == b[k] {
      assert a[k] as int == Latin1(a)[k] as int == b[k] as int;
    }
  }

  function ConcatChunks(chunks: seq<seq<byte>>): seq<byte>
  {
    if chunks == [] then [] else ConcatChunks(chunks[..|chunks| - 1]) + chunks[|chunks| - 1]
  }

  /** Every chunk is non-empty and at most `ChunkSize` long, and all but the
      last are exactly `ChunkSize` long. */
  predicate WellChunked(chunks: seq<seq<byte>>) {
    forall c :: 0 <= c < |chunks| ==>
      0 < |chunks[c]| <= ChunkSize && (c < |chunks| - 1 ==> |chunks[c]| == ChunkSize)
  }

  /** The conversion loop of `fileToBase64`: the byte ranges
      [i, min(i + 8192, len)) for i = 0, 8192, ... are turned into characters
      and appended in order. `chunks` records the ranges visited. */
  method FileToBinary(bytes: seq<byte>) returns (binary: string, ghost chunks: seq<seq<byte>>)
    ensures |binary| == |bytes|
    ensures forall k :: 0 <= k < |bytes| ==> binary[k] as int == bytes[k] as int
    ensures ConcatChunks(chunks) == bytes && WellChunked(chunks)
    ensures |chunks| == (|bytes| + ChunkSize - 1) / ChunkSize
  {
    var len := |bytes|;
    binary := "";
    chunks := [];
    var i := 0;
    while i < len
      invariant i == ChunkSize * |chunks| && i < len + ChunkSize
      invariant ConcatChunks(chunks) == bytes[..Min(i, len)]
      invariant binary == Latin1(bytes[..Min(i, len)])
      invariant WellChunked(chunks)
      invariant i <= len ==> AllFull(chunks)
      decreases len - i
    {
      var end := if i + ChunkSize < len then i + ChunkSize else len;
      var chunk := bytes[i..end];
      Latin1Append(bytes[..i], chunk);
      assert bytes[..i] + chunk == bytes[..end];
      binary := binary + Latin1(chunk);
      ExtendChunks(bytes, chunks, i, end);
      chunks := chunks + [chunk];
      i := i + ChunkSize;
    }
    assert bytes[..len] == bytes;
    ChunkCount(|chunks|, len);
  }

  lemma ChunkCount(n: nat, len: nat)
    requires ChunkSize * n < len + ChunkSize && len <= ChunkSize * n
    ensures n == (len + ChunkSize - 1) / ChunkSize
  {
  }

  function Min(a: int, b: int): int { if a <= b then a else b }

  predicate AllFull(chunks: seq<seq<byte>>) {
    forall c :: 0 <= c < |chunks| ==> |chunks[c]| == ChunkSize
  }

  lemma Latin1Append(a: seq<byte>, b: seq<byte>)
    ensures Latin1(a + b) == Latin1(a) + Latin1(b)
  {
  }

  /** Appending the next range keeps the chunk list a tiling of the prefix
      read so far. */
  lemma ExtendChunks(bytes: seq<byte>, chunks: seq<seq<byte>>, i: nat, end: nat)
    requires i < end <= |bytes| && end - i <= ChunkSize
    requires ConcatChunks(chunks) == bytes[..i] && WellChunked(chunks) && AllFull(chunks)
    ensures ConcatChunks(chunks + [bytes[i..end]]) == bytes[..end]
    ensures WellChunked(chunks + [bytes[i..end]])
    ensures end - i == ChunkSize ==> AllFull(chunks + [bytes[i..end]])
  {
    var next := chunks + [bytes[i..end]];
    assert next[..|next| - 1] == chunks;
    assert bytes[..end] == bytes[..i] + bytes[i..end];
  }

  /** `fileToBase64` after the file is read: `btoa` is outside the model and
      given as a function that may fail; a failure is reported as a file
      that is too large. */
  const FileTooLargeMessage: string := "视频文件过大，请尝试压缩后重新上传"

  method FileToBase64(bytes: seq<byte>, btoa: string -> Option<string>) returns (r: Result<string, string>)
    ensures r == (match btoa(Latin1(bytes))
                  case Some(encoded) => Success(encoded)
                  case None => Failure(FileTooLargeMessage))
  {
    var binary, _ := FileToBinary(bytes);
    assert binary == Latin1(bytes);
    match btoa(binary)
    case Some(encoded) => r := Success(encoded);
    case None => r := Failure(FileTooLargeMessage);
  }

  // ---------------------------------------------------------------------
  // Cleaning the model reply

  /** A reply that is fenced as Markdown code loses the fence: after
      trimming, a leading "```json" drops 7 characters at the front, a
      leading "```" drops 3, and both drop 3 at the end; the rest is trimmed
      again. Any other reply is only trimmed. */
  function StripFences(content: string): string
  {
    Unfence(Trim(content))
  }

  /** The fence rules applied to an already trimmed reply. */
  function Unfence(t: string): string
  {
    if StartsWith(t, "```json") then Trim(Slice(t, 7, -3))
    else if StartsWith(t, "```") then Trim(Slice(t, 3, -3))
    else t
  }

  lemma FenceNotWhitespace(s: string)
    requires |s| > 0 && s[0] == '`' && s[|s| - 1] == '`'
    ensures Trim(s) == s
  {
    TrimOfTrimmed(s);
  }

  lemma Wrapped(open: string, body: string, close: string)
    ensures var s := open + body + close;
      StartsWith(s, open) && s[|open|..|s| - |close|] == body
  {
    var s := open + body + close;
    assert s[..|open|] == open;
    assert s[|open|..|s| - |close|] == body;
  }

  /** A body fenced as "```json ... ```" comes back as the trimmed body. */
  lemma {:induction false} StripJsonFence(body: string)
    ensures StripFences("```json" + body + "```") == Trim(body)
  {
    var s := "```json" + body + "```";
    Wrapped("```json", body, "```");
    assert s[0] == '`' && s[|s| - 1] == '`';
    StripFencedAfterTrim(s);
    DropEnds(s, 7, 3);
  }

  /** A body fenced as "``` ... ```" comes back as the trimmed body, provided
      it does not itself start with "json" (then the first rule applies). */
  lemma {:induction false} StripPlainFence(body: string)
    requires !StartsWith(body, "json")
    ensures StripFences("```" + body + "```") == Trim(body)
  {
    var s := "```" + body + "```";
    Wrapped("```", body, "```");
    NotJsonFence(body);
    assert s[0] == '`' && s[|s| - 1] == '`';
    StripFencedAfterTrim(s);
    DropEnds(s, 3, 3);
  }

  /** A text with a backtick at both ends is not changed by the first trim. */
  lemma StripFencedAfterTrim(s: string)
    requires |s| > 0 && s[0] == '`' && s[|s| - 1] == '`'
    ensures StripFences(s) == Unfence(s)
  {
    FenceNotWhitespace(s);
  }

  lemma DropEnds(s: string, a: nat, b: nat)
    requires b > 0 && a + b <= |s|
    ensures Slice(s, a, -(b as int)) == s[a..|s| - b]
  {
    SliceDropsBothEnds(s, a, b);
  }

  lemma NotJsonFence(body: string)
    requires !StartsWith(body, "json")
    ensures !StartsWith("```" + body + "```", "```json")
  {
    var s := "```" + body + "```";
    assert "```json"[3..] == "json";
    if |body| >= 4 {
      assert s[3..7] == body[..4];
    } else {
      assert s[3 + |body|] == '`';
    }
  }

  /** A reply whose trimmed text does not start with "```" is only
      trimmed; stripping it again changes nothing. */
  lemma {:induction false} StripUnfenced(content: string)
    requires !StartsWith(Trim(content), "```")
    ensures StripFences(content) == Trim(content)
    ensures StripFences(StripFences(content)) == StripFences(content)
  {
    var t := Trim(content);
    TrimIdempotent(content);
    NoPlainFenceNoJsonFence(t);
  }

  /** "```json" starts with "```", so a text without the short fence has
      neither. */
  lemma NoPlainFenceNoJsonFence(t: string)
    requires !StartsWith(t, "```")
    ensures !StartsWith(t, "```json")
  {
  }

  // ---------------------------------------------------------------------
  // Sorting the segments

  predicate SortedByStart(s: seq<Segment>) {
    forall i, j :: 0 <= i < j < |s| ==> s[i].startTime <= s[j].startTime
  }

  /** `parsed.sort((a, b) => a.startTime - b.startTime)`, as an insertion
      sort that moves each element left past the larger start times. */
  method SortByStartTime(a: array<Segment>)
    modifies a
    ensures SortedByStart(a[..])
    ensures multiset(a[..]) == old(multiset(a[..]))
  {
    var i := 0;
    while i < a.Length
      invariant 0 <= i <= a.Length
      invariant SortedByStart(a[..i])
      invariant multiset(a[..]) == old(multiset(a[..]))
    {
      InsertLeft(a, i);
      i := i + 1;
    }
    assert a[..a.Length] == a[..];
  }

  /** Moves `a[i]` left into the sorted prefix `a[..i]`. */
  method InsertLeft(a: array<Segment>, i: nat)
    requires i < a.Length && SortedByStart(a[..i])
    modifies a
    ensures SortedByStart(a[..i + 1])
    ensures multiset(a[..]) == old(multiset(a[..]))
  {
    var j := i;
    while j > 0 && a[j - 1].startTime > a[j].startTime
      invariant 0 <= j <= i
      invariant multiset(a[..]) == old(multiset(a[..]))
      invariant forall p, q :: 0 <= p < q <= i && q != j ==> a[p].startTime <= a[q].startTime
      invariant 0 < j < i ==> a[j - 1].startTime <= a[j + 1].startTime
    {
      SwapAdjacent(a, j - 1);
      j := j - 1;
    }
  }

  /** Exchanges `a[k]` and `a[k + 1]`. */
  method SwapAdjacent(a: array<Segment>, k: nat)
    requires k + 1 < a.Length
    modifies a
    ensures a[k] == old(a[k + 1]) && a[k + 1] == old(a[k])
    ensures forall m :: 0 <= m < a.Length && m != k && m != k + 1 ==> a[m] == old(a[m])
    ensures multiset(a[..]) == old(multiset(a[..]))
  {
    a[k], a[k + 1] := a[k + 1], a[k];
  }

  // ---------------------------------------------------------------------
  // The request

  /** What the HTTP exchange produced: a transport failure with its message,
      or a response with its status, body text and the reply content. */
  datatype Reply =
    | TransportFailure(message: string)
    | Response(ok: bool, status: nat, errorText: string, content: Option<string>)

  /** The value `JSON.parse` produced: an array (of segments) or anything else. */
  datatype Parsed = ArrayValue(items: seq<Segment>) | OtherValue

  /** Externally visible steps, in order. */
  datatype Effect = Progress(message: string) | ReadFile | SendRequest

  const MissingKeyMessage: string := "缺少火山引擎 API Key，请在环境变量中设置 VOLC_API_KEY"
  const PreparingMessage: string := "正在准备视频数据..."
  const EmptyContentMessage: string := "API 返回内容为空"
  const NotArrayMessage: string := "返回数据不是数组"
  const FallbackMessage: string := "视频分析失败，请检查 API Key 或网络"

  function CallingMessage(language: SubtitleLanguage): string {
    "正在调用火山引擎 AI 分析视频 (目标语言: " + language.Code() + ")..."
  }

  function RequestFailedMessage(status: nat, errorText: string): string {
    "火山引擎 API 请求失败 (" + NatToString(status) + "): " + errorText
  }

  /** The HTTP status appears in the request-failure message. */
  lemma RequestFailedMentionsStatus(status: nat, errorText: string)
    ensures Contains(RequestFailedMessage(status, errorText), NatToString(status))
  {
    ContainsInMiddle("火山引擎 API 请求失败 (", NatToString(status), "): " + errorText);
    assert RequestFailedMessage(status, errorText)
        == "火山引擎 API 请求失败 (" + NatToString(status) + ("): " + errorText);
  }

  /** A missing key: the environment variable is absent or empty. */
  predicate KeyMissing(apiKey: Option<string>) {
    apiKey.None? || apiKey.value == ""
  }

  /** Everything inside the `try` block up to the sort: the parsed list, or
      the message of the error thrown. */
  function ReplyItems(reply: Reply, parse: string -> Result<Parsed, string>): (r: Result<seq<Segment>, string>)
  {
    match reply
    case TransportFailure(message) => Failure(message)
    case Response(ok, status, errorText, content) =>
      if !ok then Failure(RequestFailedMessage(status, errorText))
      else if content.None? || content.value == "" then Failure(EmptyContentMessage)
      else match parse(StripFences(content.value))
           case Failure(message) => Failure(message)
           case Success(OtherValue) => Failure(NotArrayMessage)
           case Success(ArrayValue(items)) => Success(items)
  }

  /** The `catch` clause rethrows with the same message, or a fallback text
      when the message is empty. */
  function Rethrown(message: string): (r: string)
    ensures r != ""
    ensures message != "" ==> r == message
  {
    if message == "" then FallbackMessage else message
  }

  /** `analyzeVideoWithVolcano`. The environment key, the file bytes, the
      `btoa` encoder, the HTTP reply and `JSON.parse` are inputs. */
  method AnalyzeVideo(apiKey: Option<string>, bytes: seq<byte>, language: SubtitleLanguage,
                      btoa: string -> Option<string>, reply: Reply,
                      parse: string -> Result<Parsed, string>)
    returns (r: Result<seq<Segment>, string>, effects: seq<Effect>)
    ensures KeyMissing(apiKey) ==> r == Failure(MissingKeyMessage) && effects == []
    ensures !KeyMissing(apiKey) && btoa(Latin1(bytes)).None? ==>
      r == Failure(FileTooLargeMessage) && effects == [Progress(PreparingMessage), ReadFile]
    ensures !KeyMissing(apiKey) && btoa(Latin1(bytes)).Some? ==>
      effects == [Progress(PreparingMessage), ReadFile, Progress(CallingMessage(language)), SendRequest] &&
      match ReplyItems(reply, parse)
      case Failure(message) => r == Failure(Rethrown(message))
      case Success(items) => r.Success? && SortedByStart(r.value) && multiset(r.value) == multiset(items)
  {
    if KeyMissing(apiKey) {
      return Failure(MissingKeyMessage), [];
    }
    effects := [Progress(PreparingMessage), ReadFile];
    var encoded := FileToBase64(bytes, btoa);
    if encoded.Failure? {
      return Failure(encoded.error), effects;
    }
    effects := effects + [Progress(CallingMessage(language)), SendRequest];
    var items := ReplyItems(reply, parse);
    if items.Failure? {
      return Failure(Rethrown(items.error)), effects;
    }
    var sorted := SortedCopy(items.value);
    r := Success(sorted);
  }

  /** `parsed.sort(...)` on a fresh array holding the parsed items. */
  method SortedCopy(items: seq<Segment>) returns (sorted: seq<Segment>)
    ensures SortedByStart(sorted) && multiset(sorted) == multiset(items)
  {
    var a := new Segment[|items|](k requires 0 <= k < |items| => items[k]);
    assert a[..] == items;
    SortByStartTime(a);
    sorted := a[..];
  }

  /** A successful response with missing or empty content is rejected
      with the empty-content message, which the `catch` clause passes on
      unchanged; so `AnalyzeVideo` fails with exactly that message. */
  lemma EmptyContentRejected(status: nat, errorText: string, content: Option<string>,
                             parse: string -> Result<Parsed, string>)
    requires content.None? || content.value == ""
    ensures ReplyItems(Response(true, status, errorText, content), parse) == Failure(EmptyContentMessage)
    ensures Rethrown(EmptyContentMessage) == EmptyContentMessage
  {
  }

  /** With a key and an encodable file, an ok response without content
      makes the whole analysis fail with the empty-content message. */
  method EmptyReplyFailsAnalysis(apiKey: Option<string>, bytes: seq<byte>, language: SubtitleLanguage,
                                 btoa: string -> Option<string>, status: nat, errorText: string,
                                 content: Option<string>, parse: string -> Result<Parsed, string>)
    returns (r: Result<seq<Segment>, string>)
    requires !KeyMissing(apiKey) && btoa(Latin1(bytes)).Some?
    requires content.None? || content.value == ""
    ensures r == Failure(EmptyContentMessage)
  {
    EmptyContentRejected(status, errorText, content, parse);
    var effects;
    r, effects := AnalyzeVideo(apiKey, bytes, language, btoa, Response(true, status, errorText, content), parse);
  }

  /** The `try` block yields a list exactly when the response is ok, its
      content is non-empty, and the cleaned content parses to an array;
      the list is then the parsed array. */
  lemma ReplyItemsSucceedsIff(reply: Reply, parse: string -> Result<Parsed, string>)
    ensures ReplyItems(reply, parse).Success? <==>
      reply.Response? && reply.ok && reply.content.Some? && reply.content.value != "" &&
      parse(StripFences(reply.content.value)).Success? &&
      parse(StripFences(reply.content.value)).value.ArrayValue?
    ensures ReplyItems(reply, parse).Success? ==>
      ReplyItems(reply, parse).value == parse(StripFences(reply.content.value)).value.items
  {
  }

  /** A reply that is not an array is rejected with its own message. */
  lemma NotArrayRejected(content: string, parse: string -> Result<Parsed, string>)
    requires content != "" && parse(StripFences(content)) == Success(OtherValue)
    ensures ReplyItems(Response(true, 200, "", Some(content)), parse) == Failure(NotArrayMessage)
  {
  }

  /** A failed request reports its status: the rethrown message of a 401
      response contains "401". */
  lemma UnauthorizedMentions401(errorText: string, parse: string -> Result<Parsed, string>)
    ensures var m := ReplyItems(Response(false, 401, errorText, None), parse);
      m.Failure? && Contains(Rethrown(m.error), "401")
  {
    RequestFailedMentionsStatus(401, errorText);
    Render401();
  }

  lemma Render401()
    ensures NatToString(401) == "401"
  {
    assert NatToString(4) == "4";
    assert NatToString(40) == NatToString(4) + [Digit(0)] == "40";
    assert NatToString(401) == NatToString(40) + [Digit(1)] == "401";
  }
}
