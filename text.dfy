/**
 * The handful of Python `str` operations the core applies to command output:
 * `strip`, `isdigit`/`int`, `split`, `join`, `replace`, `in`, `startswith`,
 * `lower`/`upper`, and the `name="([^"]+)"` regular expressions used to pull
 * attributes out of Plex's XML replies.
 */
module Text {
  import opened Wrappers

  /** Python's `str.isspace` for a single character. */
  predicate IsSpace(c: char) {
    c == ' ' || ('\t' <= c <= '\r') || ('\U{1C}' <= c <= '\U{1F}')
    || c == '\U{85}' || c == '\U{A0}' || c == '\U{1680}'
    || ('\U{2000}' <= c <= '\U{200A}') || c == '\U{2028}' || c == '\U{2029}'
    || c == '\U{202F}' || c == '\U{205F}' || c == '\U{3000}'
  }

  /** `s.lstrip()`: the longest suffix of `s` that does not start with white space. */
  function TrimLeft(s: string): (r: string)
    ensures |r| <= |s| && r == s[|s| - |r|..]
  {
    if s != [] && IsSpace(s[0]) then TrimLeft(s[1..]) else s
  }

  /** `s.rstrip()`: the longest prefix of `s` that does not end with white space. */
  function TrimRight(s: string): (r: string)
    ensures |r| <= |s| && r == s[..|r|]
  {
    if s != [] && IsSpace(s[|s| - 1]) then TrimRight(s[..|s| - 1]) else s
  }

  /** `s.strip()`. */
  function Strip(s: string): (r: string)
    ensures |r| <= |s|
  {
    TrimLeft(TrimRight(s))
  }

  /** Stripped text neither starts nor ends with white space. */
  lemma StripEnds(s: string)
    ensures Strip(s) == [] || (!IsSpace(Strip(s)[0]) && !IsSpace(Strip(s)[|Strip(s)| - 1]))
  {
    TrimRightEnds(s);
    TrimLeftEnds(TrimRight(s));
  }

  lemma {:induction false} TrimLeftEnds(s: string)
    ensures TrimLeft(s) == [] || !IsSpace(TrimLeft(s)[0])
    decreases |s|
  {
    if s != [] && IsSpace(s[0]) {
      TrimLeftEnds(s[1..]);
    }
  }

  lemma {:induction false} TrimRightEnds(s: string)
    ensures TrimRight(s) == [] || !IsSpace(TrimRight(s)[|TrimRight(s)| - 1])
    decreases |s|
  {
    if s != [] && IsSpace(s[|s| - 1]) {
      TrimRightEnds(s[..|s| - 1]);
    }
  }

  predicate IsDigit(c: char) {
    '0' as int <= c as int <= '9' as int
  }

  /** Every character of `s` is a decimal digit. */
  predicate AllDigits(s: string)
    decreases |s|
  {
    s == [] || (AllDigits(s[..|s| - 1]) && IsDigit(s[|s| - 1]))
  }

  /** `s.isdigit()` for ASCII text: non-empty and made of digits only. */
  predicate IsDigits(s: string) {
    |s| > 0 && AllDigits(s)
  }

  /** `int(s)` for a string of decimal digits. */
  function DigitsValue(s: string): (n: nat)
    requires AllDigits(s)
    decreases |s|
  {
    if s == [] then 0
    else 10 * DigitsValue(s[..|s| - 1]) + (s[|s| - 1] as int - '0' as int)
  }

  /** `str(n)` for a natural number. */
  function NatToString(n: nat): (s: string)
    ensures IsDigits(s) && IsDigit(s[0])
    ensures n > 0 ==> s[0] != '0'
  {
    if n < 10 then
      var s := [('0' as int + n) as char];
      assert s[..|s| - 1] == [] && AllDigits([]);
      assert s[0] as int == '0' as int + n;
      s
    else
      var high := NatToString(n / 10);
      var s := high + [('0' as int + n % 10) as char];
      assert s[..|s| - 1] == high;
      s
  }

  /** `str(i)` for an integer. */
  function IntToString(i: int): (s: string)
    ensures |s| > 0
    ensures s[0] == '-' <==> i < 0
  {
    if i < 0 then "-" + NatToString(-i) else NatToString(i)
  }

  /** Reading back what `str` wrote gives the number again. */
  lemma {:induction false} DigitsValueOfNatToString(n: nat)
    ensures DigitsValue(NatToString(n)) == n
  {
    if n >= 10 {
      DigitsValueOfNatToString(n / 10);
      var s := NatToString(n);
      assert s[..|s| - 1] == NatToString(n / 10);
    }
  }

  predicate StartsWith(s: string, prefix: string) {
    |prefix| <= |s| && s[..|prefix|] == prefix
  }

  /** Python's `sub in s`. */
  predicate Contains(s: string, sub: string)
    decreases |s|
  {
    StartsWith(s, sub) || (s != [] && Contains(s[1..], sub))
  }

  /** `sub in s` holds exactly when `sub` occurs at some position of `s`. */
  lemma {:induction false} ContainsAt(s: string, sub: string, i: nat)
    requires i + |sub| <= |s| && s[i..i + |sub|] == sub
    ensures Contains(s, sub)
    decreases i
  {
    if i > 0 {
      assert s[1..][i - 1..i - 1 + |sub|] == s[i..i + |sub|];
      ContainsAt(s[1..], sub, i - 1);
    }
  }

  /** The position of the last `c` in `s`. */
  function LastIndex(s: string, c: char): (k: nat)
    requires c in s
    ensures k < |s| && s[k] == c
    ensures c !in s[k + 1..]
  {
    if s[|s| - 1] == c then |s| - 1 else LastIndex(s[..|s| - 1], c)
  }

  /**
   * `s.split(sep)` for a one-character separator: the parts before the last
   * separator, then the text after it.
   */
  function Split(s: string, sep: char): (parts: seq<string>)
    ensures |parts| >= 1
    decreases |s|
  {
    if sep !in s then [s]
    else
      var k := LastIndex(s, sep);
      Split(s[..k], sep) + [s[k + 1..]]
  }

  /** `sep.join(parts)`. */
  function Join(parts: seq<string>, sep: string): (s: string)
    ensures parts == [] ==> s == ""
    ensures |parts| == 1 ==> s == parts[0]
  {
    if parts == [] then ""
    else if |parts| == 1 then parts[0]
    else parts[0] + sep + Join(parts[1..], sep)
  }

  /** Splitting on a character and joining back with it is the identity. */
  lemma {:induction false} JoinSplit(s: string, sep: char)
    ensures Join(Split(s, sep), [sep]) == s
    decreases |s|
  {
    if sep in s {
      var k := LastIndex(s, sep);
      CutAt(s, k);
      JoinSplit(s[..k], sep);
      JoinSnoc(Split(s[..k], sep), s[k + 1..], [sep]);
    }
  }

  /** Text is what comes before position `k`, the character there, and what follows. */
  lemma CutAt(s: string, k: nat)
    requires k < |s|
    ensures s == s[..k] + [s[k]] + s[k + 1..]
  {
  }

  /** Joining other parts with one more part behind them puts the separator between them. */
  lemma {:induction false} JoinSnoc(parts: seq<string>, last: string, sep: string)
    requires parts != []
    ensures Join(parts + [last], sep) == Join(parts, sep) + sep + last
    decreases |parts|
  {
    if |parts| > 1 {
      assert (parts + [last])[1..] == parts[1..] + [last];
      JoinSnoc(parts[1..], last, sep);
    }
  }

  /** `s.replace(old, new)`: every non-overlapping occurrence, scanning left to right. */
  function ReplaceAll(s: string, pattern: string, replacement: string): string
    requires |pattern| > 0
    decreases |s|
  {
    if |s| < |pattern| then s
    else if s[..|pattern|] == pattern then replacement + ReplaceAll(s[|pattern|..], pattern, replacement)
    else [s[0]] + ReplaceAll(s[1..], pattern, replacement)
  }

  /** Replacing a string that does not occur changes nothing. */
  lemma {:induction false} ReplaceAbsent(s: string, pattern: string, replacement: string)
    requires |pattern| > 0 && !Contains(s, pattern)
    ensures ReplaceAll(s, pattern, replacement) == s
    decreases |s|
  {
    if |s| >= |pattern| {
      assert !StartsWith(s, pattern);
      ReplaceAbsent(s[1..], pattern, replacement);
      assert s == [s[0]] + s[1..];
    }
  }

  /** `c.lower()` for an ASCII letter; every other character is kept. */
  function LowerChar(c: char): char {
    if 'A' <= c <= 'Z' then (c as int + 32) as char else c
  }

  /** `c.upper()` for an ASCII letter; every other character is kept. */
  function UpperChar(c: char): char {
    if 'a' <= c <= 'z' then (c as int - 32) as char else c
  }

  /** `s.lower()` restricted to ASCII letters. */
  function ToLower(s: string): (r: string)
    ensures |r| == |s| && forall i :: 0 <= i < |s| ==> r[i] == LowerChar(s[i])
  {
    seq(|s|, i requires 0 <= i < |s| => LowerChar(s[i]))
  }

  /** `s.upper()` restricted to ASCII letters. */
  function ToUpper(s: string): (r: string)
    ensures |r| == |s| && forall i :: 0 <= i < |s| ==> r[i] == UpperChar(s[i])
  {
    seq(|s|, i requires 0 <= i < |s| => UpperChar(s[i]))
  }

  /** The longest prefix of `s` holding no double quote: what `[^"]+` consumes. */
  function QuoteFree(s: string): (r: string)
    ensures |r| <= |s| && r == s[..|r|]
    ensures '"' !in r
    ensures |r| < |s| ==> s[|r|] == '"'
  {
    if s == [] || s[0] == '"' then [] else [s[0]] + QuoteFree(s[1..])
  }

  /** `re.match(prefix + '([^"]+)"', s)`: a capture anchored at the start of `s`. */
  function CaptureHere(s: string, prefix: string): (v: Option<string>)
    ensures v.Some? ==> StartsWith(s, prefix + v.value + "\"")
    ensures v.Some? ==> |v.value| > 0 && '"' !in v.value
  {
    if !StartsWith(s, prefix) then None
    else
      var rest := s[|prefix|..];
      var run := QuoteFree(rest);
      if 0 < |run| < |rest| then
        assert s[..|prefix| + |run| + 1] == prefix + run + "\"";
        Some(run)
      else None
  }

  /** `re.search(prefix + '([^"]+)"', s)`: the leftmost capture, if any. */
  function Capture(s: string, prefix: string): (v: Option<string>)
    ensures v.Some? ==> |v.value| > 0 && '"' !in v.value && Contains(s, prefix + v.value + "\"")
    decreases |s|
  {
    match CaptureHere(s, prefix)
    case Some(v) =>
      ContainsAt(s, prefix + v + "\"", 0);
      Some(v)
    case None =>
      if s == [] then None
      else
        var v := Capture(s[1..], prefix);
        if v.Some? then
          assert Contains(s, prefix + v.value + "\"");
          v
        else None
  }

  /** `re.findall(prefix + '([^"]+)"', s)`: every capture, left to right, never overlapping. */
  function CaptureAll(s: string, prefix: string): (vs: seq<string>)
    ensures forall i :: 0 <= i < |vs| ==> |vs[i]| > 0 && '"' !in vs[i]
    decreases |s|
  {
    match CaptureHere(s, prefix)
    case Some(v) => [v] + CaptureAll(s[|prefix| + |v| + 1..], prefix)
    case None => if s == [] then [] else CaptureAll(s[1..], prefix)
  }
}
