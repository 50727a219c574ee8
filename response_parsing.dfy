/**
 * Reading a JSON reply out of an agent's free text: a reply wrapped in a
 * Markdown code fence (a line starting with three backticks, the JSON, another
 * such line) is unwrapped before it is parsed, and a reply that does not parse
 * is replaced by a fixed error object.
 *
 * `json.loads` is not modelled; it is the parameter `parse`, which gives `None`
 * where `json.loads` raises `JSONDecodeError`.
 */
module ResponseParsing {
  import opened Wrappers
  import opened Strings
  import opened Json

  const ParseFailureMessage := "Failed to parse JSON response"

  /** The minimal structure returned in place of a reply that does not parse. */
  const ParseFailure: JsonValue := JObject(map["error" := JString(ParseFailureMessage)])

  /**
   * A line that opens or closes a code fence: after its leading whitespace come
   * three backticks. `FenceLineOnceStripped` shows this is `line.strip().startswith('```')`.
   */
  predicate IsFenceLine(line: string) {
    StartsWith(StripLeft(line), "```")
  }

  /** Trailing whitespace never matters to the fence test. */
  lemma FenceLineOnceStripped(line: string)
    ensures IsFenceLine(line) <==> StartsWith(Strip(line), "```")
  {
    var l := StripLeft(line);
    if StartsWith(l, "```") {
      assert forall i :: 0 <= i < 3 ==> !IsSpace(l[i]);
      StripKeepsPrefix(l, 3);
    }
    if StartsWith(Strip(line), "```") {
      var r := Strip(line);
      assert r == StripRight(l);
      assert r[..3] == l[..3];
    }
  }

  /** The fence test as the scan writes it, on the fully stripped line. */
  function StrippedStartsWithFence(line: string): (b: bool)
    ensures b == IsFenceLine(line)
  {
    FenceLineOnceStripped(line);
    StartsWith(Strip(line), "```")
  }

  /** Which of the lines are fence lines. */
  function FenceFlags(lines: seq<string>): (flags: seq<bool>)
    ensures |flags| == |lines|
    ensures forall i :: 0 <= i < |lines| ==> flags[i] == IsFenceLine(lines[i])
  {
    seq(|lines|, i requires 0 <= i < |lines| => IsFenceLine(lines[i]))
  }

  /** The index of the first fence line at or after `from`, if any. */
  function NextFence(flags: seq<bool>, from: nat): (r: Option<nat>)
    ensures r.Some? ==> from <= r.value < |flags| && flags[r.value]
    ensures r.Some? ==> forall i :: from <= i < r.value ==> !flags[i]
    ensures r.None? ==> forall i :: from <= i < |flags| ==> !flags[i]
    decreases |flags| - from
  {
    if from >= |flags| then None
    else if flags[from] then Some(from)
    else NextFence(flags, from + 1)
  }

  /** The first fence line at or after `from` is at `j`. */
  lemma {:induction false} NextFenceAt(flags: seq<bool>, from: nat, j: nat)
    requires from <= j < |flags| && flags[j]
    requires forall k :: from <= k < j ==> !flags[k]
    ensures NextFence(flags, from) == Some(j)
    decreases j - from
  {
    if from < j {
      NextFenceAt(flags, from + 1, j);
    }
  }

  /** No fence line at or after `from`. */
  lemma {:induction false} NextFenceNone(flags: seq<bool>, from: nat)
    requires forall k :: from <= k < |flags| ==> !flags[k]
    ensures NextFence(flags, from) == None
    decreases |flags| - from
  {
    if from < |flags| {
      NextFenceNone(flags, from + 1);
    }
  }

  /**
   * The text handed to the parser: the stripped reply, or, when it opens with a
   * fence and a second fence line follows, the stripped lines strictly between the
   * first two fence lines.
   */
  function Unfenced(text: string): string {
    var t := Strip(text);
    if !StartsWith(t, "```") then t
    else
      var lines := Split(t);
      var flags := FenceFlags(lines);
      match NextFence(flags, 0)
      case None => t
      case Some(open) =>
        match NextFence(flags, open + 1)
        case None => t
        case Some(close) => Strip(Join(lines[open + 1..close]))
  }

  /**
   * What the scan knows after looking at the first `i` flags: `startIdx` is one
   * past the first fence line seen, `endIdx` the second one, and no fence line
   * was passed over.
   */
  ghost predicate ScannedUpTo(flags: seq<bool>, i: nat, startIdx: Option<nat>, endIdx: Option<nat>)
    requires i <= |flags|
  {
    match startIdx
    case None => endIdx.None? && forall k :: 0 <= k < i ==> !flags[k]
    case Some(s) =>
      && 1 <= s <= i && flags[s - 1]
      && (forall k :: 0 <= k < s - 1 ==> !flags[k])
      && match endIdx
         case None => forall k :: s <= k < i ==> !flags[k]
         case Some(e) => s <= e < |flags| && flags[e] && forall k :: s <= k < e ==> !flags[k]
  }

  /**
   * The scan of `extract_json_from_response` over the lines of a fenced reply:
   * `startIdx` is one past the first fence line and `endIdx` the index of the
   * next one; the scan stops at the second fence line.
   */
  method FindFences(lines: seq<string>) returns (startIdx: Option<nat>, endIdx: Option<nat>)
    ensures var flags := FenceFlags(lines);
            startIdx == (match NextFence(flags, 0) case Some(k) => Some(k + 1) case None => None)
    ensures var flags := FenceFlags(lines);
            endIdx == (match NextFence(flags, 0) case Some(k) => NextFence(flags, k + 1) case None => None)
  {
    ghost var flags := FenceFlags(lines);
    startIdx, endIdx := None, None;
    var i := 0;
    while i < |lines|
      invariant 0 <= i <= |lines|
      invariant endIdx.None? && ScannedUpTo(flags, i, startIdx, endIdx)
    {
      ScanStep(flags, i, startIdx);
      if StrippedStartsWithFence(lines[i]) {
        if startIdx.None? {
          startIdx := Some(i + 1);
        } else {
          endIdx := Some(i);
          break;
        }
      }
      i := i + 1;
    }
    ScanFinished(flags, i, startIdx, endIdx);
  }

  /** One turn of the scan keeps what it knows. */
  lemma ScanStep(flags: seq<bool>, i: nat, startIdx: Option<nat>)
    requires i < |flags| && ScannedUpTo(flags, i, startIdx, None)
    ensures !flags[i] ==> ScannedUpTo(flags, i + 1, startIdx, None)
    ensures flags[i] && startIdx.None? ==> ScannedUpTo(flags, i + 1, Some(i + 1), None)
    ensures flags[i] && startIdx.Some? ==> ScannedUpTo(flags, i, startIdx, Some(i))
  {
  }

  /** A scan that reached the end of the lines or stopped at the second fence line has found the first two fence lines. */
  lemma ScanFinished(flags: seq<bool>, i: nat, startIdx: Option<nat>, endIdx: Option<nat>)
    requires i <= |flags| && ScannedUpTo(flags, i, startIdx, endIdx)
    requires i == |flags| || endIdx.Some?
    ensures startIdx == (match NextFence(flags, 0) case Some(k) => Some(k + 1) case None => None)
    ensures endIdx == (match NextFence(flags, 0) case Some(k) => NextFence(flags, k + 1) case None => None)
  {
    if startIdx.None? {
      NextFenceNone(flags, 0);
    } else {
      NextFenceAt(flags, 0, startIdx.value - 1);
      if endIdx.None? {
        NextFenceNone(flags, startIdx.value);
      } else {
        NextFenceAt(flags, startIdx.value, endIdx.value);
      }
    }
  }

  /**
   * `extract_json_from_response`: strip the reply; when it opens with a fence,
   * scan for the first two fence lines and, when both indices are set and
   * non-zero, keep what lies between them; then parse, falling back to the error
   * object.
   */
  method ExtractJsonFromResponse(text: string, parse: string -> Option<JsonValue>) returns (r: JsonValue)
    ensures parse(Unfenced(text)).Some? ==> r == parse(Unfenced(text)).value
    ensures parse(Unfenced(text)).None? ==> r == ParseFailure
  {
    var t := Strip(text);
    if StartsWith(t, "```") {
      var lines := Split(t);
      var startIdx, endIdx := FindFences(lines);
      if startIdx.Some? && startIdx.value != 0 && endIdx.Some? && endIdx.value != 0 {
        t := Strip(Join(lines[startIdx.value..endIdx.value]));
      }
    }
    assert t == Unfenced(text);
    r := match parse(t) case Some(v) => v case None => ParseFailure;
  }

  /** A reply that does not open with a fence is only stripped before parsing. */
  lemma UnfencedPlain(text: string)
    requires !StartsWith(Strip(text), "```")
    ensures Unfenced(text) == Strip(text)
  {
  }

  /** When the stripped reply opens with a fence, its first line is the opening fence line. */
  lemma {:induction false} OpeningFenceIsFirstLine(t: string)
    requires StartsWith(t, "```") && Strip(t) == t
    ensures NextFence(FenceFlags(Split(t)), 0) == Some(0)
  {
    var lines := Split(t);
    assert '\n' !in "```";
    SplitFirstStartsWith(t, "```");
    var first := lines[0];
    assert first[..3] == "```";
    StripKeepsPrefix(first, 3);
    assert Strip(first)[..3] == "```";
    assert IsFenceLine(first);
    NextFenceAt(FenceFlags(lines), 0, 0);
  }

  /**
   * A fenced reply with a closing fence line at `close` (the first fence line
   * after the opening one) is parsed as the stripped lines strictly between them.
   */
  lemma UnfencedBetween(text: string, close: nat)
    requires StartsWith(Strip(text), "```")
    requires 1 <= close < |Split(Strip(text))|
    requires IsFenceLine(Split(Strip(text))[close])
    requires forall i :: 1 <= i < close ==> !IsFenceLine(Split(Strip(text))[i])
    ensures Unfenced(text) == Strip(Join(Split(Strip(text))[1..close]))
  {
    var t := Strip(text);
    StripIdempotent(text);
    OpeningFenceIsFirstLine(t);
    var lines := Split(t);
    NextFenceAt(FenceFlags(lines), 1, close);
  }

  /** Whichever way the reply is read, the parser gets stripped text. */
  lemma UnfencedStripped(text: string)
    ensures Strip(Unfenced(text)) == Unfenced(text)
  {
    var r := Unfenced(text);
    StripUnchanged(r);
  }

  /** A fenced reply with no closing fence line is only stripped before parsing. */
  lemma UnfencedUnclosed(text: string)
    requires StartsWith(Strip(text), "```")
    requires forall i :: 1 <= i < |Split(Strip(text))| ==> !IsFenceLine(Split(Strip(text))[i])
    ensures Unfenced(text) == Strip(text)
  {
    var t := Strip(text);
    StripIdempotent(text);
    OpeningFenceIsFirstLine(t);
    NextFenceNone(FenceFlags(Split(t)), 1);
  }

  /** The fenced text `"```" + info + "\n" + body + "\n" + "```"`. */
  function Fenced(info: string, body: string): string {
    "```" + info + "\n" + body + "\n" + "```"
  }

  /** The lines of a fenced text are the opening line, the body's lines and the closing line. */
  lemma FencedLines(info: string, body: string)
    requires '\n' !in info
    ensures Split(Fenced(info, body)) == ["```" + info] + Split(body) + ["```"]
  {
    var opening := "```" + info;
    assert '\n' !in opening;
    assert '\n' !in "```";
    assert Fenced(info, body) == opening + "\n" + (body + "\n" + "```");
    SplitAfterLine(opening, body + "\n" + "```");
    SplitBeforeLine(body, "```");
  }

  /** A fenced text is already stripped and opens with a fence. */
  lemma FencedStripped(info: string, body: string)
    ensures Strip(Fenced(info, body)) == Fenced(info, body)
    ensures StartsWith(Fenced(info, body), "```")
  {
    var t := Fenced(info, body);
    assert t[0] == '`' && t[|t| - 1] == '`';
    StripUnchanged(t);
    assert t[..3] == "```";
  }

  /** Of the lines of a fenced text, only the last after the first is a fence line. */
  lemma FencedInnerLines(info: string, body: string)
    requires '\n' !in info
    requires forall i :: 0 <= i < |Split(body)| ==> !IsFenceLine(Split(body)[i])
    ensures var lines := Split(Fenced(info, body));
            && 2 <= |lines|
            && IsFenceLine(lines[|lines| - 1])
            && (forall i :: 1 <= i < |lines| - 1 ==> !IsFenceLine(lines[i]))
            && lines[1..|lines| - 1] == Split(body)
  {
    FencedLines(info, body);
    var lines := Split(Fenced(info, body));
    assert lines[|lines| - 1] == "```";
    StripUnchanged("```");
    assert IsFenceLine("```") by { assert "```"[..3] == "```"; }
    forall i | 1 <= i < |lines| - 1 ensures !IsFenceLine(lines[i]) {
      assert lines[i] == Split(body)[i - 1];
    }
    assert lines[1..|lines| - 1] == Split(body);
  }

  /**
   * Wrapping a body in a fence (an opening line of three backticks and an info
   * string such as `json`, the body, a closing line of three backticks) and then
   * unfencing gives back the stripped body, provided no line of the body itself
   * looks like a fence line.
   */
  lemma FenceRoundTrip(info: string, body: string)
    requires '\n' !in info
    requires forall i :: 0 <= i < |Split(body)| ==> !IsFenceLine(Split(body)[i])
    ensures Unfenced(Fenced(info, body)) == Strip(body)
  {
    FencedStripped(info, body);
    FencedInnerLines(info, body);
    UnfencedFramed(Fenced(info, body), body);
  }

  /**
   * A stripped reply that opens with a fence and whose only later fence line is
   * its last line hands the parser its middle lines, stripped.
   */
  lemma UnfencedFramed(t: string, body: string)
    requires Strip(t) == t && StartsWith(t, "```")
    requires 2 <= |Split(t)| && IsFenceLine(Split(t)[|Split(t)| - 1])
    requires forall i :: 1 <= i < |Split(t)| - 1 ==> !IsFenceLine(Split(t)[i])
    requires Split(t)[1..|Split(t)| - 1] == Split(body)
    ensures Unfenced(t) == Strip(body)
  {
    UnfencedBetween(t, |Split(t)| - 1);
    JoinSplit(body);
  }
}
