/** The shared error log of a client: `_CheckError` classifies one reply and
    records at most one message; `_FetchErrors` drains the log into a single
    raised message. The log itself is the sequence of recorded messages. */
module ErrorLog {
  import opened Common
  import opened Text

  /** The reply handed to `_CheckError`, tagged by its runtime type: an HTTP
      response (only its `ok` flag matters), a parsed JSON object (its keys in
      order, and what `response["error"]["code"]` evaluates to when that is a
      string), or anything else, such as `None`. */
  datatype Reply =
    | HttpResponse(ok: bool)
    | JsonDict(keys: seq<string>, errorCode: Option<string>)
    | Neither

  /** A dict reply the program can receive: `errorCode` describes
      `response["error"]["code"]`, which has a value only when the dict has
      the key "error" itself. Other `JsonDict` values describe no reply; the
      lemmas hold for them as well. */
  predicate WellFormed(r: Reply)
  {
    r.JsonDict? && r.errorCode.Some? ==> ErrorKey in r.keys
  }

  /** How `_CheckError` judges a reply: no error, an error with the message to
      record, or an exception while reading the error code. */
  datatype Verdict = Clean | Flagged(message: string) | Crashed

  /** The result of one `_CheckError` call: the returned flag (or the raised
      fault) and the log afterwards. */
  datatype Checked = Checked(flag: Result<bool>, log: seq<string>)

  /** The result of one `_FetchErrors` call: the log afterwards and the
      message raised, if any. */
  datatype Drain = Drain(log: seq<string>, raised: Option<string>)

  const ErrorKey: string := "error"
  const Separator: string := ". "

  /** Number of keys that contain the substring "error". */
  function ErrorKeyCount(keys: seq<string>): (n: nat)
    ensures n <= |keys|
  {
    if |keys| == 0 then 0
    else (if Contains(keys[0], ErrorKey) then 1 else 0) + ErrorKeyCount(keys[1..])
  }

  /** `s` repeated `n` times. */
  function Repeat(s: string, n: nat): (r: string)
    ensures |r| == n * |s|
  {
    if n == 0 then "" else s + Repeat(s, n - 1)
  }

  /** The suffix appended to a message once per error key. */
  function CodeSuffix(code: string): string
  {
    " (Code: " + code + ")"
  }

  /** `_CheckError` without the side effect: the loop over the keys of a JSON
      object appends the code suffix once for every key containing "error". */
  function Classify(text: string, reply: Reply): (v: Verdict)
    ensures v.Flagged? ==> |v.message| >= |text| && v.message[..|text|] == text
    ensures reply.HttpResponse? ==> v == (if reply.ok then Clean else Flagged(text))
  {
    match reply
    case HttpResponse(ok) => if ok then Clean else Flagged(text)
    case JsonDict(keys, code) =>
      var n := ErrorKeyCount(keys);
      if n == 0 then Clean
      else if code.None? then Crashed
      else Flagged(text + Repeat(CodeSuffix(code.value), n))
    case Neither => Flagged(text)
  }

  /** The message recorded for a verdict, if any (a crash records nothing). */
  function Recorded(v: Verdict): Option<string>
  {
    if v.Flagged? then Some(v.message) else None
  }

  /** `_CheckError(error_text, response)` on the log `log`: the flag is true
      iff the reply signals an error, and exactly then the log grows by one
      message that begins with `text`; a failed code lookup raises before the
      log is touched. */
  function CheckError(log: seq<string>, text: string, reply: Reply): (r: Checked)
    ensures r.flag.Ok? ==> (r.flag.value <==> |r.log| == |log| + 1)
    ensures r.flag.Ok? && !r.flag.value ==> r.log == log
    ensures r.flag.Ok? && r.flag.value ==>
      r.log[..|log|] == log && |r.log[|log|]| >= |text| && r.log[|log|][..|text|] == text
    ensures r.flag.Err? ==> r.log == log && r.flag.fault == CodeUnreadable
  {
    match Classify(text, reply)
    case Clean => Checked(Ok(false), log)
    case Flagged(m) => Checked(Ok(true), log + [m])
    case Crashed => Checked(Err(CodeUnreadable), log)
  }

  /** `_FetchErrors(prefix)`: a non-empty log is joined with ". ", prefixed,
      cleared and raised; an empty log is left alone. */
  function FetchErrors(log: seq<string>, prefix: string): (r: Drain)
    ensures r.log == []
    ensures r.raised.Some? <==> |log| > 0
    ensures r.raised.Some? ==>
      |r.raised.value| >= |prefix| && r.raised.value[..|prefix|] == prefix
  {
    if |log| != 0 then Drain([], Some(prefix + Join(log, Separator)))
    else Drain(log, None)
  }

  // ---------------------------------------------------------------------------
  // Independent descriptions and lemmas

  /** Some key contains "error" somewhere. */
  ghost predicate HasErrorKey(keys: seq<string>)
  {
    exists i, j :: 0 <= i < |keys| && OccursAt(keys[i], ErrorKey, j)
  }

  /** The reply is one that the client counts as a failure. */
  ghost predicate SignalsError(reply: Reply)
  {
    match reply
    case HttpResponse(ok) => !ok
    case JsonDict(keys, _) => HasErrorKey(keys)
    case Neither => true
  }

  lemma {:induction false} ErrorKeyCountPositive(keys: seq<string>)
    ensures ErrorKeyCount(keys) > 0 <==> HasErrorKey(keys)
    decreases |keys|
  {
    if |keys| > 0 {
      ErrorKeyCountPositive(keys[1..]);
      ContainsIffOccurs(keys[0], ErrorKey);
      if HasErrorKey(keys[1..]) {
        var i, j :| 0 <= i < |keys[1..]| && OccursAt(keys[1..][i], ErrorKey, j);
        assert OccursAt(keys[i + 1], ErrorKey, j);
      }
      if HasErrorKey(keys) {
        var i, j :| 0 <= i < |keys| && OccursAt(keys[i], ErrorKey, j);
        if i > 0 {
          assert OccursAt(keys[1..][i - 1], ErrorKey, j);
        }
      }
    }
  }

  /** Classification: unless the error-code lookup raises, `_CheckError`
      returns true exactly for a not-ok response, an object with a key
      containing "error", or a reply of neither type; and it records exactly
      one message exactly then. */
  lemma CheckErrorFlagsFailures(log: seq<string>, text: string, reply: Reply)
    ensures CheckError(log, text, reply).flag.Ok? ==>
      (CheckError(log, text, reply).flag.value <==> SignalsError(reply))
    ensures CheckError(log, text, reply).flag.Err? <==>
      reply.JsonDict? && HasErrorKey(reply.keys) && reply.errorCode.None?
  {
    if reply.JsonDict? {
      ErrorKeyCountPositive(reply.keys);
    }
  }

  /** An object whose keys contain "error" exactly once gets the code appended
      exactly once. */
  lemma SingleErrorKeyMessage(log: seq<string>, text: string, keys: seq<string>, code: string)
    requires ErrorKeyCount(keys) == 1
    ensures CheckError(log, text, JsonDict(keys, Some(code))) ==
      Checked(Ok(true), log + [text + " (Code: " + code + ")"])
  {
    assert Repeat(CodeSuffix(code), 1) == CodeSuffix(code) + Repeat(CodeSuffix(code), 0);
    assert Repeat(CodeSuffix(code), 1) == CodeSuffix(code);
    assert Classify(text, JsonDict(keys, Some(code))) == Flagged(text + CodeSuffix(code));
    assert text + CodeSuffix(code) == text + " (Code: " + code + ")";
  }

  /** The key loop of `_CheckError` as written: walk the keys in order and
      append the code suffix to the text at each key containing "error". */
  function CodeLoop(text: string, keys: seq<string>, code: string): string
    decreases |keys|
  {
    if |keys| == 0 then text
    else CodeLoop(if Contains(keys[0], ErrorKey) then text + CodeSuffix(code) else text, keys[1..], code)
  }

  /** One more repetition is one more copy at the end. */
  lemma {:induction false} RepeatSnoc(s: string, n: nat)
    ensures Repeat(s, n + 1) == Repeat(s, n) + s
    decreases n
  {
    if n > 0 {
      RepeatSnoc(s, n - 1);
      assert Repeat(s, n + 1) == s + (Repeat(s, n - 1) + s);
    }
  }

  /** The key loop leaves the text followed by one code suffix per key
      containing "error". */
  lemma {:induction false} CodeLoopRepeats(text: string, keys: seq<string>, code: string)
    ensures CodeLoop(text, keys, code) == text + Repeat(CodeSuffix(code), ErrorKeyCount(keys))
    decreases |keys|
  {
    if |keys| > 0 {
      var suffix := CodeSuffix(code);
      var n := ErrorKeyCount(keys[1..]);
      if Contains(keys[0], ErrorKey) {
        CodeLoopRepeats(text + suffix, keys[1..], code);
        assert (text + suffix) + Repeat(suffix, n) == text + (suffix + Repeat(suffix, n));
      } else {
        CodeLoopRepeats(text, keys[1..], code);
      }
    }
  }

  /** `Classify` on a dict agrees with the key loop as written: no key
      containing "error" is clean, and otherwise the message is the text
      with one code suffix for each such key, in key order. */
  lemma ClassifyFollowsCodeLoop(text: string, keys: seq<string>, code: string)
    ensures ErrorKeyCount(keys) == 0 ==> Classify(text, JsonDict(keys, Some(code))) == Clean
    ensures ErrorKeyCount(keys) > 0 ==>
      Classify(text, JsonDict(keys, Some(code))) == Flagged(CodeLoop(text, keys, code))
  {
    CodeLoopRepeats(text, keys, code);
  }

  /** One more key containing "error" adds exactly one code suffix to the
      recorded message. */
  lemma ErrorKeyAddsOneSuffix(text: string, keys: seq<string>, key: string, code: string)
    requires Contains(key, ErrorKey)
    ensures Classify(text, JsonDict(keys + [key], Some(code))) ==
      Flagged(CodeLoop(text, keys, code) + CodeSuffix(code))
  {
    ErrorKeyCountSnoc(keys, key);
    CodeLoopRepeats(text, keys, code);
    RepeatSnoc(CodeSuffix(code), ErrorKeyCount(keys));
  }

  /** Counting over a sequence extended at the end. */
  lemma {:induction false} ErrorKeyCountSnoc(keys: seq<string>, key: string)
    ensures ErrorKeyCount(keys + [key]) == ErrorKeyCount(keys) + (if Contains(key, ErrorKey) then 1 else 0)
    decreases |keys|
  {
    if |keys| == 0 {
      assert keys + [key] == [key];
    } else {
      assert (keys + [key])[1..] == keys[1..] + [key];
      ErrorKeyCountSnoc(keys[1..], key);
    }
  }

  /** A dict with "error" and "error_description" records the code twice. */
  lemma TwoErrorKeys(text: string, code: string)
    ensures Classify(text, JsonDict(["error", "error_description"], Some(code))) ==
      Flagged(text + CodeSuffix(code) + CodeSuffix(code))
  {
    ContainsMiddle("", ErrorKey, "");
    assert "" + ErrorKey + "" == "error";
    ContainsMiddle("", ErrorKey, "_description");
    assert "" + ErrorKey + "_description" == "error_description";
    ErrorKeyAddsOneSuffix(text, ["error"], "error_description", code);
    assert ["error"] + ["error_description"] == ["error", "error_description"];
    assert CodeLoop(text, ["error"], code) == CodeLoop(text + CodeSuffix(code), [], code);
  }

  /** Draining twice without records in between: the second drain changes
      nothing and raises nothing. */
  lemma DrainTwiceIsNoOp(log: seq<string>, p1: string, p2: string)
    ensures FetchErrors(FetchErrors(log, p1).log, p2) == Drain([], None)
  {
  }

  /** The raised message carries every recorded entry: no entry is lost. */
  lemma DrainKeepsEveryEntry(log: seq<string>, prefix: string, i: nat)
    requires i < |log|
    ensures FetchErrors(log, prefix).raised.Some?
    ensures Contains(FetchErrors(log, prefix).raised.value, log[i])
  {
    JoinContainsEach(log, Separator, i);
    ContainsIffOccurs(Join(log, Separator), log[i]);
    var j :| OccursAt(Join(log, Separator), log[i], j);
    var m := prefix + Join(log, Separator);
    assert m[|prefix| + j..|prefix| + j + |log[i]|] == Join(log, Separator)[j..j + |log[i]|];
    assert OccursAt(m, log[i], |prefix| + j);
    ContainsIffOccurs(m, log[i]);
  }

  /** One more record before a drain adds exactly one fragment at the end. */
  lemma DrainAfterRecord(log: seq<string>, entry: string, prefix: string)
    requires |log| > 0
    ensures FetchErrors(log + [entry], prefix).raised ==
      Some(FetchErrors(log, prefix).raised.value + Separator + entry)
  {
    JoinSnoc(log, entry, Separator);
    assert prefix + (Join(log, Separator) + Separator + entry) ==
      (prefix + Join(log, Separator)) + Separator + entry;
  }
}
