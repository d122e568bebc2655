/**
 * The string operations the getter applies to wire payloads: Python's
 * `str.split(sep)` with an explicit one-character separator, its inverse
 * `sep.join`, the `split('.')[-1]` that extracts a code from a quote id, and
 * the ASCII part of `str.lower`.
 */
module Text {

  /** Python `s.split(sep)`: the pieces between separators, always at least one. */
  function Split(s: string, sep: char): (parts: seq<string>)
    ensures |parts| >= 1
    ensures forall i :: 0 <= i < |parts| ==> sep !in parts[i]
    ensures |parts| == 1 <==> sep !in s
    ensures sep !in s ==> parts == [s]
    decreases |s|
  {
    if |s| == 0 then [""]
    else
      var rest := Split(s[1..], sep);
      if s[0] == sep then [""] + rest
      else
        assert s == [s[0]] + s[1..];
        [[s[0]] + rest[0]] + rest[1..]
  }

  /** Python `sep.join(parts)` for a non-empty list of pieces. */
  function Join(parts: seq<string>, sep: char): string
    requires |parts| >= 1
    decreases |parts|
  {
    if |parts| == 1 then parts[0] else parts[0] + [sep] + Join(parts[1..], sep)
  }

  /** Joining the pieces of a split gives back the original string. */
  lemma {:induction false} JoinSplit(s: string, sep: char)
    ensures Join(Split(s, sep), sep) == s
    decreases |s|
  {
    if |s| > 0 {
      var rest := Split(s[1..], sep);
      JoinSplit(s[1..], sep);
      if s[0] == sep {
        assert s == [sep] + s[1..];
      } else if |rest| == 1 {
        assert s == [s[0]] + s[1..];
      } else {
        assert Join(rest, sep) == rest[0] + [sep] + Join(rest[1..], sep);
        assert s == [s[0]] + s[1..];
      }
    }
  }

  /** Splitting at a separator placed between `a` and `b` splits each side on its own. */
  lemma {:induction false} SplitAround(a: string, b: string, sep: char)
    ensures Split(a + [sep] + b, sep) == Split(a, sep) + Split(b, sep)
    decreases |a|
  {
    var s := a + [sep] + b;
    if |a| == 0 {
      assert s[1..] == b;
    } else {
      assert s[1..] == a[1..] + [sep] + b;
      SplitAround(a[1..], b, sep);
    }
  }

  /** Splitting a join of separator-free pieces gives back the pieces. */
  lemma {:induction false} SplitJoin(parts: seq<string>, sep: char)
    requires |parts| >= 1
    requires forall i :: 0 <= i < |parts| ==> sep !in parts[i]
    ensures Split(Join(parts, sep), sep) == parts
    decreases |parts|
  {
    if |parts| > 1 {
      SplitAround(parts[0], Join(parts[1..], sep), sep);
      SplitJoin(parts[1..], sep);
      assert parts == [parts[0]] + parts[1..];
    }
  }

  /** The last piece of a split is the longest suffix of `s` that holds no separator. */
  lemma {:induction false} LastPieceIsSuffix(s: string, sep: char)
    ensures var parts := Split(s, sep);
            var r := parts[|parts| - 1];
            && |r| <= |s|
            && s[|s| - |r|..] == r
            && (|r| == |s| || s[|s| - |r| - 1] == sep)
    decreases |s|
  {
    if |s| > 0 {
      LastPieceIsSuffix(s[1..], sep);
    }
  }

  /**
   * Python `quote_id.split('.')[-1]`: the text after the last '.', or the
   * whole id when it holds no '.'.
   */
  function LastSegment(quoteId: string): (code: string)
    ensures '.' !in code
    ensures |code| <= |quoteId| && quoteId[|quoteId| - |code|..] == code
    ensures |code| == |quoteId| || quoteId[|quoteId| - |code| - 1] == '.'
    ensures '.' !in quoteId ==> code == quoteId
  {
    var parts := Split(quoteId, '.');
    LastPieceIsSuffix(quoteId, '.');
    parts[|parts| - 1]
  }

  /** A quote id built as `market + '.' + code` with a dot-free code gives back that code. */
  lemma CodeRoundTrip(market: string, code: string)
    requires '.' !in code
    ensures LastSegment(market + "." + code) == code
  {
    SplitAround(market, code, '.');
    assert market + "." + code == market + ['.'] + code;
  }

  /** `str.lower` restricted to ASCII letters. */
  function AsciiLower(s: string): (r: string)
    ensures |r| == |s|
    ensures forall i :: 0 <= i < |s| ==> ('A' <= s[i] <= 'Z' <==> r[i] != s[i])
  {
    seq(|s|, i requires 0 <= i < |s| =>
      if 'A' <= s[i] <= 'Z' then (s[i] as int + 32) as char else s[i])
  }

  /** `text.lower() == 'nan'`. */
  predicate IsNanText(text: string) {
    AsciiLower(text) == "nan"
  }

  /** Exactly the eight spellings nan, naN, ..., NAN compare equal to 'nan' after lowering. */
  lemma NanSpellings(text: string)
    ensures IsNanText(text) <==>
      |text| == 3 && text[0] in "nN" && text[1] in "aA" && text[2] in "nN"
  {
    if |text| == 3 && text[0] in "nN" && text[1] in "aA" && text[2] in "nN" {
      assert AsciiLower(text) == "nan";
    }
  }
}
