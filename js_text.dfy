/**
 * The few pieces of JavaScript string behaviour the page relies on:
 * rendering a number inside a template literal, `Array.prototype.join`,
 * `String.prototype.includes` and `split(',')[1]`.
 */
module JsText {
  import opened Wrappers

  predicate IsDigit(c: char) {
    '0' <= c <= '9'
  }

  predicate AllDigits(s: string) {
    forall i :: 0 <= i < |s| ==> IsDigit(s[i])
  }

  function DigitChar(d: nat): (c: char)
    requires d < 10
    ensures IsDigit(c) && c as int - '0' as int == d
  {
    (d + '0' as int) as char
  }

  /** How `${n}` renders a non-negative integer: decimal, no leading zeros. */
  function NatToString(n: nat): (s: string)
    ensures |s| >= 1 && AllDigits(s)
    ensures |s| > 1 ==> s[0] != '0'
    decreases n
  {
    if n < 10 then [DigitChar(n)] else NatToString(n / 10) + [DigitChar(n % 10)]
  }

  /** The number a string of decimal digits denotes (the reading direction). */
  function DecimalValue(s: string): (n: nat)
    requires AllDigits(s)
  {
    if s == [] then 0
    else DecimalValue(s[..|s| - 1]) * 10 + (s[|s| - 1] as int - '0' as int)
  }

  lemma {:induction false} DecimalRoundTrip(n: nat)
    ensures DecimalValue(NatToString(n)) == n
    decreases n
  {
    if n >= 10 {
      var s := NatToString(n);
      assert s[..|s| - 1] == NatToString(n / 10);
      DecimalRoundTrip(n / 10);
    }
  }

  /** Distinct numbers render as distinct strings. */
  lemma NatToStringInjective(m: nat, n: nat)
    requires NatToString(m) == NatToString(n)
    ensures m == n
  {
    DecimalRoundTrip(m);
    DecimalRoundTrip(n);
  }

  /** `xs.join(sep)`: the elements in order with `sep` between neighbours. */
  function Join(xs: seq<string>, sep: string): (r: string)
    ensures xs == [] ==> r == ""
    ensures |xs| == 1 ==> r == xs[0]
    ensures xs != [] ==> xs[0] <= r
    decreases |xs|
  {
    if xs == [] then ""
    else if |xs| == 1 then xs[0]
    else xs[0] + sep + Join(xs[1..], sep)
  }

  /** Joining one more element appends the separator and that element. */
  lemma {:induction false} JoinSnoc(xs: seq<string>, x: string, sep: string)
    requires xs != []
    ensures Join(xs + [x], sep) == Join(xs, sep) + sep + x
    decreases |xs|
  {
    if |xs| == 1 {
      assert (xs + [x])[1..] == [x];
    } else {
      assert (xs + [x])[1..] == xs[1..] + [x];
      JoinSnoc(xs[1..], x, sep);
    }
  }

  /** `sub` sits in `s` starting at index `i`. */
  predicate OccursAt(s: string, sub: string, i: int) {
    0 <= i && i + |sub| <= |s| && s[i..i + |sub|] == sub
  }

  /** `s.includes(sub)`: `sub` occurs somewhere in `s`. */
  predicate Includes(s: string, sub: string)
    ensures sub == "" ==> Includes(s, sub)
    ensures Includes(s, sub) ==> |sub| <= |s|
  {
    assert sub == "" ==> OccursAt(s, sub, 0);
    exists i | 0 <= i <= |s| :: OccursAt(s, sub, i)
  }

  /** Whatever surrounds it, a string that embeds `sub` includes it. */
  lemma {:induction false} IncludesEmbedded(before: string, sub: string, after: string)
    ensures Includes(before + sub + after, sub)
    ensures Includes(sub, sub)
  {
    var s := before + sub + after;
    assert s[|before|..|before| + |sub|] == sub;
    assert OccursAt(s, sub, |before|);
    assert sub[0..|sub|] == sub;
    assert OccursAt(sub, sub, 0);
  }

  /** `s.split(sep)[1]`: the text between the first and the second `sep`
      (or the end), or `undefined` when `s` holds no `sep`. */
  function SecondField(s: string, sep: char): (r: Option<string>)
    ensures r.None? <==> sep !in s
    ensures r.Some? ==> sep !in r.value
  {
    if sep !in s then None
    else
      var rest := AfterFirst(s, sep);
      Some(UpTo(rest, sep))
  }

  /** The text after the first `sep` of `s`. */
  function AfterFirst(s: string, sep: char): (r: string)
    requires sep in s
    ensures |r| < |s|
    decreases |s|
  {
    if s[0] == sep then s[1..] else AfterFirst(s[1..], sep)
  }

  /** The longest prefix of `s` holding no `sep`. */
  function UpTo(s: string, sep: char): (r: string)
    ensures sep !in r
    ensures r <= s
    ensures |r| < |s| ==> s[|r|] == sep
    decreases |s|
  {
    if s == [] || s[0] == sep then [] else [s[0]] + UpTo(s[1..], sep)
  }

  /** A data URL's payload comes back out of `split(',')[1]` when neither
      the header nor the payload holds a comma (base64 never does). */
  lemma {:induction false} SecondFieldRoundTrip(header: string, payload: string)
    requires ',' !in header && ',' !in payload
    ensures SecondField(header + "," + payload, ',') == Some(payload)
    decreases |header|
  {
    var s := header + "," + payload;
    assert s[|header|] == ',';
    AfterFirstOfCommaFree(header, payload);
    UpToCommaFree(payload);
  }

  lemma {:induction false} AfterFirstOfCommaFree(header: string, payload: string)
    requires ',' !in header
    ensures ',' in header + "," + payload
    ensures AfterFirst(header + "," + payload, ',') == payload
    decreases |header|
  {
    var s := header + "," + payload;
    assert s[|header|] == ',';
    if header == [] {
      assert s[1..] == payload;
    } else {
      assert s[0] == header[0];
      assert s[1..] == header[1..] + "," + payload;
      AfterFirstOfCommaFree(header[1..], payload);
    }
  }

  lemma {:induction false} UpToCommaFree(s: string)
    requires ',' !in s
    ensures UpTo(s, ',') == s
    decreases |s|
  {
    if s != [] {
      assert ',' !in s[1..] by {
        forall i | 0 <= i < |s[1..]| ensures s[1..][i] != ',' {
          assert s[1..][i] == s[i + 1];
        }
      }
      UpToCommaFree(s[1..]);
    }
  }

  /** The front and back of a concatenation are its two parts. */
  lemma ConcatParts(a: string, b: string)
    ensures |a + b| == |a| + |b|
    ensures (a + b)[..|a|] == a
    ensures (a + b)[|a|..] == b
  {
  }

  /** The three parts of a concatenation can be read back by position. */
  lemma ConcatThree(a: string, b: string, c: string)
    ensures |a + b + c| == |a| + |b| + |c|
    ensures (a + b + c)[..|a|] == a
    ensures (a + b + c)[|a|..|a| + |b|] == b
    ensures (a + b + c)[|a| + |b|..] == c
  {
    assert (a + b + c)[|a|..|a| + |b|] == b;
  }

  /** A prefix of `b` stays a prefix of anything `b` is extended to. */
  lemma PrefixExtends(a: string, b: string, c: string)
    requires a <= b
    ensures a <= b + c
  {
    assert (b + c)[..|a|] == b[..|a|];
  }

  lemma Regroup(a: string, b: string, c: string, d: string)
    ensures a + (b + c) + d == (a + b) + c + d
  {
  }
}
