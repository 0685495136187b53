/**
 * analyze_transcript of backend/services/yandex_gpt.py: the credential
 * guard, the cleanup of the model's reply before JSON parsing, and the
 * record returned when the reply is not JSON. The HTTP request, the reply
 * and `json.loads` are inputs: the reply is `Ok(text)` or `Err(message)`
 * when the request raised, and the parser is a function that gives `None`
 * where `json.loads` raises. Whatever JSON value it parses (a list, a
 * null, a dict of any shape) is returned unchecked.
 */
module YandexGpt {
  import opened Wrappers
  import opened Text
  import opened JsonData
  import opened Records

  const Fence := "```"
  const JsonFence := "```json"
  const SummaryLimit := 500

  /** `s` without the prefix `p`, if it starts with it. */
  function DropPrefix(s: string, p: string): (r: string)
    ensures |r| <= |s|
  {
    if StartsWith(s, p) then s[|p|..] else s
  }

  /** `s` without the suffix `p`, if it ends with it. */
  function DropSuffix(s: string, p: string): (r: string)
    ensures |r| <= |s|
  {
    if EndsWith(s, p) then s[..|s| - |p|] else s
  }

  /** The text given to `json.loads`: the stripped reply without a leading ```json, then a leading ```, then a trailing ```, stripped again. */
  function FenceStripped(reply: string): (r: string)
    ensures |r| <= |reply|
  {
    Strip(DropSuffix(DropPrefix(DropPrefix(Strip(reply), JsonFence), Fence), Fence))
  }

  /** The cleanup as the source writes it: `clean_text` reassigned by one check after another. */
  method CleanReply(gptText: string) returns (cleanText: string)
    ensures cleanText == FenceStripped(gptText)
  {
    assert |JsonFence| == 7 && |Fence| == 3;
    cleanText := Strip(gptText);
    ghost var a := cleanText;
    if StartsWith(cleanText, JsonFence) {
      cleanText := cleanText[7..];
    }
    assert cleanText == DropPrefix(a, JsonFence);
    ghost var b := cleanText;
    if StartsWith(cleanText, Fence) {
      cleanText := cleanText[3..];
    }
    assert cleanText == DropPrefix(b, Fence);
    ghost var c := cleanText;
    if EndsWith(cleanText, Fence) {
      cleanText := cleanText[..|cleanText| - 3];
    }
    assert cleanText == DropSuffix(c, Fence);
    cleanText := Strip(cleanText);
  }

  /** A reply that, once stripped, neither starts nor ends with a fence reaches the parser stripped and otherwise intact. */
  lemma UnfencedReply(reply: string)
    requires !StartsWith(Strip(reply), Fence) && !EndsWith(Strip(reply), Fence)
    ensures FenceStripped(reply) == Strip(reply)
  {
    var a := Strip(reply);
    assert !StartsWith(a, JsonFence);
    assert DropPrefix(DropPrefix(a, JsonFence), Fence) == a;
    StripIdempotent(reply);
  }

  /** Text whose first and last characters are not whitespace is unchanged by Strip. */
  lemma StripTrimmed(s: string)
    requires s != [] && !IsSpace(s[0]) && !IsSpace(s[|s| - 1])
    ensures Strip(s) == s
  {
    StripSpaces(s);
    assert LeadingSpaces(s) == 0;
  }

  /**
   * A reply of the form ```json X ``` reaches the parser as X stripped,
   * provided X does not itself begin with a backtick.
   */
  lemma JsonFencedReply(x: string)
    requires x == [] || x[0] != '`'
    ensures FenceStripped(JsonFence + x + Fence) == Strip(x)
  {
    var reply := JsonFence + x + Fence;
    StripTrimmed(reply);
    assert StartsWith(reply, JsonFence);
    var b := DropPrefix(reply, JsonFence);
    assert b == x + Fence;
    if x == [] {
      assert DropPrefix(b, Fence) == [];
      assert DropSuffix([], Fence) == [];
    } else {
      assert !StartsWith(b, Fence) by {
        assert b[0] == x[0];
      }
      assert DropPrefix(b, Fence) == b;
      assert EndsWith(b, Fence);
      assert DropSuffix(b, Fence) == x;
    }
  }

  /** The record returned when the cleaned reply is not JSON: the first 500 characters of the raw reply and empty lists. */
  function Fallback(gptText: string): (r: AnalysisDict)
    ensures r.summary.Some? && |r.summary.value| <= SummaryLimit && StartsWith(gptText, r.summary.value)
    ensures |gptText| <= SummaryLimit ==> r.summary.value == gptText
    ensures r.tasks == Some([]) && r.keyPoints == Some([]) && r.decisions == Some([])
  {
    AnalysisDict(Some(Take(gptText, SummaryLimit)), Some([]), Some([]), Some([]))
  }

  /** Why analyze_transcript raised. */
  datatype GptError = MissingCredentials | RequestFailed(message: string)

  /** Python truthiness of an environment variable: unset and empty both count as missing. */
  predicate IsSet(v: Option<string>) {
    v.Some? && v.value != ""
  }

  /**
   * analyze_transcript. Missing credentials raise ValueError before any
   * request (the reply is not looked at); a failed request re-raises; a
   * reply the parser rejects yields the fallback record and does not raise.
   */
  function AnalyzeTranscript(apiKey: Option<string>, folderId: Option<string>, reply: Result<string, string>,
                             jsonLoads: string -> Option<Json>): (r: Result<Json, GptError>)
    ensures !IsSet(apiKey) || !IsSet(folderId) ==> r == Err(MissingCredentials)
    ensures IsSet(apiKey) && IsSet(folderId) && reply.Err? ==> r == Err(RequestFailed(reply.error))
    ensures IsSet(apiKey) && IsSet(folderId) && reply.Ok? ==>
      r.Ok? && (jsonLoads(FenceStripped(reply.value)).Some? ==> r.value == jsonLoads(FenceStripped(reply.value)).value)
      && (jsonLoads(FenceStripped(reply.value)).None? ==> r.value == AnalysisValue(Fallback(reply.value)))
  {
    if !IsSet(apiKey) || !IsSet(folderId) then Err(MissingCredentials)
    else match reply
      case Err(e) => Err(RequestFailed(e))
      case Ok(gptText) =>
        match jsonLoads(FenceStripped(gptText))
        case Some(analysis) => Ok(analysis)
        case None => Ok(AnalysisValue(Fallback(gptText)))
  }

  /** The credential check does not depend on the reply: with a missing key or folder id no reply changes the outcome. */
  lemma GuardBeforeRequest(apiKey: Option<string>, folderId: Option<string>, reply1: Result<string, string>,
                           reply2: Result<string, string>, jsonLoads: string -> Option<Json>)
    requires !IsSet(apiKey) || !IsSet(folderId)
    ensures AnalyzeTranscript(apiKey, folderId, reply1, jsonLoads) == AnalyzeTranscript(apiKey, folderId, reply2, jsonLoads)
  {
  }
}
