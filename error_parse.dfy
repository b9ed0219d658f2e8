/**
 * `parseError`: how the error modal turns a raw error message into the text it
 * displays. An embedded JSON error object `{"error":…}` is looked for with a
 * regular expression; when one is found and its `message` is present, that
 * message is shown instead of the raw text.
 */
module ErrorParse {
  import opened Wrappers

  /** The literal the pattern starts with. */
  const ErrorOpen := "{\"error\":"

  /** What `JSON.parse(capture)` followed by `.message` yields: a throw (malformed
      text, or a value such as `null` whose `message` cannot be read), an object
      whose `message` is falsy, or one whose `message` is the given text. */
  datatype JsonOutcome = Throws | NoMessage | Message(text: string)

  /** The characters JavaScript's `.` does not match. */
  predicate IsLineTerminator(c: char) {
    c == '\n' || c == '\r' || c == '\U{2028}' || c == '\U{2029}'
  }

  predicate NoLineTerminator(s: string) {
    forall k | 0 <= k < |s| :: !IsLineTerminator(s[k])
  }

  /** The longest prefix of `s` that `.*` can span: up to the first line terminator. */
  function LineOf(s: string): (r: string)
    ensures r <= s && NoLineTerminator(r)
    ensures r == s || IsLineTerminator(s[|r|])
  {
    if s == [] || IsLineTerminator(s[0]) then []
    else [s[0]] + LineOf(s[1..])
  }

  /** The index of the last `c` in `s`. */
  function LastIndexOf(s: string, c: char): (r: Option<nat>)
    ensures r.None? <==> c !in s
    ensures r.Some? ==> r.value < |s| && s[r.value] == c && c !in s[r.value + 1..]
  {
    if s == [] then None
    else if s[|s| - 1] == c then Some(|s| - 1)
    else
      var r := LastIndexOf(s[..|s| - 1], c);
      assert s == s[..|s| - 1] + [s[|s| - 1]];
      r
  }

  /** The greedy `(.*)}` at the start of `s`: everything up to the last `}` on
      the current line. */
  function CloseCapture(s: string): (r: Option<string>)
    ensures r.None? <==> '}' !in LineOf(s)
    ensures r.Some? ==> NoLineTerminator(r.value) && r.value + "}" <= s
    // Greedy: no `}` follows the captured one on the same line.
    ensures r.Some? ==> |r.value| < |LineOf(s)| && '}' !in LineOf(s)[|r.value| + 1..]
  {
    var line := LineOf(s);
    match LastIndexOf(line, '}')
    case None => None
    case Some(j) =>
      assert line[..j + 1] == line[..j] + "}";
      Some(line[..j])
  }

  /** The literal opener sits at index `i`. */
  predicate OpensAt(s: string, i: int) {
    0 <= i && i + |ErrorOpen| <= |s| && s[i..i + |ErrorOpen|] == ErrorOpen
  }

  /** The pattern matches at `i`: the opener there, and a `}` later on its line. */
  predicate MatchesAt(s: string, i: int) {
    OpensAt(s, i) && '}' in LineOf(s[i + |ErrorOpen|..])
  }

  /** The leftmost index in `from..last` where `p` holds. */
  function FirstWhere(p: nat -> bool, from: nat, last: nat): (r: Option<nat>)
    requires from <= last
    ensures r.None? <==> (forall i | from <= i <= last :: !p(i))
    ensures r.Some? ==> from <= r.value <= last && p(r.value)
    ensures r.Some? ==> (forall k | from <= k < r.value :: !p(k))
    decreases last - from
  {
    if p(from) then Some(from)
    else if from == last then None
    else FirstWhere(p, from + 1, last)
  }

  /** Where `regex.exec` finds its match: the leftmost index that matches. */
  function FirstMatch(s: string): (r: Option<nat>)
    ensures r.None? <==> forall i | 0 <= i <= |s| :: !MatchesAt(s, i)
    ensures r.Some? ==> r.value <= |s| && MatchesAt(s, r.value)
    ensures r.Some? ==> forall k | 0 <= k < r.value :: !MatchesAt(s, k)
  {
    var p: nat -> bool := i => MatchesAt(s, i);
    assert forall i: nat :: p(i) == MatchesAt(s, i);
    FirstWhere(p, 0, |s|)
  }

  /** `regex.exec(error)`'s group 1: the capture of the leftmost match. */
  function Capture(s: string): (r: Option<string>)
    ensures r.None? <==> forall i | 0 <= i <= |s| :: !MatchesAt(s, i)
    ensures r.Some? ==> NoLineTerminator(r.value)
    ensures r.Some? ==> r == CloseCapture(s[FirstMatch(s).value + |ErrorOpen|..])
  {
    match FirstMatch(s)
    case None => None
    case Some(i) => CloseCapture(s[i + |ErrorOpen|..])
  }

  /** `parseError(error)`, with `JSON.parse(...).message` given as `parse`. */
  function ParseError(error: string, parse: string -> JsonOutcome): (r: string)
    ensures Capture(error).None? ==> r == error
    // A message with no `{"error":` in it is shown exactly as it is.
    ensures (forall i :: !OpensAt(error, i)) ==> r == error
    // Otherwise the raw text is shown unless the capture parses to a non-empty message.
    ensures r == error || (Capture(error).Some? && parse(Capture(error).value) == Message(r) && r != "")
    ensures Capture(error).Some? && parse(Capture(error).value).Message? && parse(Capture(error).value).text != "" ==>
      r == parse(Capture(error).value).text
  {
    match Capture(error)
    case None => error
    case Some(e) =>
      match parse(e)
      case Message(text) => if text != "" then text else error
      case _ => error
  }

  /** A whole message `{"error":body}` on one line captures exactly `body`, even
      when `body` holds further braces: the capture runs to the last `}`. */
  lemma {:induction false} WrappedBodyCaptured(body: string)
    requires NoLineTerminator(body)
    ensures Capture(ErrorOpen + body + "}") == Some(body)
  {
    var s := ErrorOpen + body + "}";
    assert s[0..|ErrorOpen|] == ErrorOpen;
    assert s[|ErrorOpen|..] == body + "}";
    ClosingBraceEndsCapture(body);
    assert MatchesAt(s, 0);
  }

  /** The capture after the opener runs to the final `}`. */
  lemma {:induction false} ClosingBraceEndsCapture(body: string)
    requires NoLineTerminator(body)
    ensures CloseCapture(body + "}") == Some(body)
  {
    var rest := body + "}";
    assert NoLineTerminator(rest);
    LineOfWholeLine(rest);
    assert rest[|rest| - 1] == '}';
    assert rest[..|body|] == body;
  }

  /** A line without terminators is spanned whole. */
  lemma {:induction false} LineOfWholeLine(s: string)
    requires NoLineTerminator(s)
    ensures LineOf(s) == s
    decreases |s|
  {
    if s != [] {
      assert NoLineTerminator(s[1..]);
      LineOfWholeLine(s[1..]);
      assert s == [s[0]] + s[1..];
    }
  }

  /** So such a message shows the parsed `message` when it is present. */
  lemma {:induction false} EmbeddedMessageShown(body: string, parse: string -> JsonOutcome, text: string)
    requires NoLineTerminator(body) && parse(body) == Message(text) && text != ""
    ensures ParseError(ErrorOpen + body + "}", parse) == text
  {
    WrappedBodyCaptured(body);
  }
}
