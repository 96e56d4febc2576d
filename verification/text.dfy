/**
 * String utilities the bot relies on: Rust's `str::split_whitespace`,
 * `slice::join`, `str::starts_with` and the case mappings used on service,
 * environment and status strings.
 */
module Text {

  /** Rust's `char::is_whitespace`: the Unicode White_Space property. */
  predicate IsWhitespace(c: char) {
    || c == ' '
    || ('\t' <= c <= '\r')
    || c == '\U{0085}' || c == '\U{00A0}' || c == '\U{1680}'
    || ('\U{2000}' <= c <= '\U{200A}')
    || c == '\U{2028}' || c == '\U{2029}' || c == '\U{202F}' || c == '\U{205F}'
    || c == '\U{3000}'
  }

  predicate NoWhitespace(s: string) {
    forall i :: 0 <= i < |s| ==> !IsWhitespace(s[i])
  }

  /** A token `split_whitespace` can yield: non-empty, free of whitespace. */
  predicate IsWord(s: string) {
    |s| > 0 && NoWhitespace(s)
  }

  /** Length of the longest whitespace-free prefix of `s`. */
  function WordLength(s: string): (n: nat)
    ensures n <= |s|
    ensures NoWhitespace(s[..n])
    ensures n < |s| ==> IsWhitespace(s[n])
  {
    if |s| == 0 || IsWhitespace(s[0]) then 0
    else
      var m := WordLength(s[1..]);
      assert s[..m + 1] == [s[0]] + s[1..][..m];
      m + 1
  }

  /** Rust's `s.split_whitespace().collect()`. */
  function SplitWhitespace(s: string): (words: seq<string>)
    ensures forall i :: 0 <= i < |words| ==> IsWord(words[i])
    decreases |s|
  {
    if |s| == 0 then []
    else if IsWhitespace(s[0]) then SplitWhitespace(s[1..])
    else
      var n := WordLength(s);
      [s[..n]] + SplitWhitespace(s[n..])
  }

  /**
   * Rust's `words.join(sep)`. Joining words with single spaces is undone by
   * `split_whitespace`.
   */
  function Join(words: seq<string>, sep: string): (r: string)
    ensures sep == " " && (forall i :: 0 <= i < |words| ==> IsWord(words[i])) ==> SplitWhitespace(r) == words
  {
    if |words| == 0 then ""
    else if |words| == 1 then
      SplitWordThen(words[0], "");
      assert words[0] + "" == words[0];
      words[0]
    else
      var tail := Join(words[1..], sep);
      assert words[0] + sep + tail == words[0] + (sep + tail);
      SplitWordThen(words[0], sep + tail);
      assert sep == " " ==> (sep + tail)[1..] == tail;
      assert words == [words[0]] + words[1..];
      words[0] + sep + tail
  }

  /** Rust's `s.starts_with(prefix)`: `prefix` agrees with `s` position by position. */
  predicate StartsWith(s: string, prefix: string)
    ensures StartsWith(s, prefix) <==> |prefix| <= |s| && forall i :: 0 <= i < |prefix| ==> s[i] == prefix[i]
  {
    |prefix| <= |s| && s[..|prefix|] == prefix
  }

  predicate EndsWith(s: string, suffix: string) {
    |suffix| <= |s| && s[|s| - |suffix|..] == suffix
  }

  /** ASCII case mapping (see README: non-ASCII characters are left unchanged). */
  function UpperChar(c: char): char {
    if 'a' <= c <= 'z' then (c as int - 32) as char else c
  }

  function LowerChar(c: char): char {
    if 'A' <= c <= 'Z' then (c as int + 32) as char else c
  }

  function Upper(s: string): (r: string)
    ensures |r| == |s|
    ensures forall i :: 0 <= i < |s| ==> r[i] == UpperChar(s[i])
  {
    seq(|s|, i requires 0 <= i < |s| => UpperChar(s[i]))
  }

  function Lower(s: string): (r: string)
    ensures |r| == |s|
    ensures forall i :: 0 <= i < |s| ==> r[i] == LowerChar(s[i])
  {
    seq(|s|, i requires 0 <= i < |s| => LowerChar(s[i]))
  }

  /** The test `status.to_lowercase() == "ok"` shared by both health checkers. */
  predicate IsOk(status: string) {
    Lower(status) == "ok"
  }

  /** `IsOk` accepts exactly the four spellings of "ok". */
  lemma IsOkSpellings(status: string)
    ensures IsOk(status) <==> status in {"ok", "oK", "Ok", "OK"}
  {
    if IsOk(status) {
      assert |status| == 2;
      assert status[0] in "oO" && status[1] in "kK";
      assert status == [status[0], status[1]];
    }
  }

  /** A whitespace-free prefix is exactly what `WordLength` measures. */
  lemma {:induction false} WordLengthOfWord(w: string, rest: string)
    requires NoWhitespace(w)
    requires |rest| == 0 || IsWhitespace(rest[0])
    ensures WordLength(w + rest) == |w|
    decreases |w|
  {
    if |w| > 0 {
      assert (w + rest)[1..] == w[1..] + rest;
      WordLengthOfWord(w[1..], rest);
    } else {
      assert w + rest == rest;
    }
  }

  /** Splitting a word followed by whitespace (or nothing) yields that word first. */
  lemma SplitWordThen(w: string, rest: string)
    ensures IsWord(w) && (|rest| == 0 || IsWhitespace(rest[0])) ==>
              SplitWhitespace(w + rest) == [w] + SplitWhitespace(rest)
  {
    if IsWord(w) && (|rest| == 0 || IsWhitespace(rest[0])) {
      WordLengthOfWord(w, rest);
      var s := w + rest;
      assert s[..|w|] == w;
      assert s[|w|..] == rest;
    }
  }

  /** A string is its prefix followed by the rest. */
  lemma PrefixThenRest(s: string, prefix: string)
    requires StartsWith(s, prefix)
    ensures s == prefix + s[|prefix|..]
  {
    assert s == s[..|prefix|] + s[|prefix|..];
  }

  /** Two prefixes of one string: the shorter is a prefix of the longer. */
  lemma PrefixesNest(s: string, p: string, q: string)
    ensures StartsWith(s, p) && StartsWith(s, q) && |p| <= |q| ==> StartsWith(q, p)
  {
    if StartsWith(s, p) && StartsWith(s, q) && |p| <= |q| {
      assert q[..|p|] == s[..|q|][..|p|];
    }
  }
}
