/**
 * The identifier charset (SHORT_URL_CHARSET, server.py:19) and the candidate
 * generator of get_next_id (server.py:97-101) as a function of the random
 * indexes it draws.
 */
module Charset {

  /** The `n` consecutive characters starting at `first`, as Python's string
      constants spell out a character range. */
  function CharRange(first: char, n: nat): (r: string)
    requires first as int + n <= 0xD800
    ensures |r| == n
    ensures forall i :: 0 <= i < n ==> r[i] as int == first as int + i
    decreases n
  {
    if n == 0 then [] else CharRange(first, n - 1) + [(first as int + n - 1) as char]
  }

  const AsciiLowercase: string := CharRange('a', 26)
  const AsciiUppercase: string := CharRange('A', 26)
  /** string.ascii_letters is the lower-case letters followed by the upper-case ones. */
  const AsciiLetters: string := AsciiLowercase + AsciiUppercase
  const Digits: string := CharRange('0', 10)

  /** SHORT_URL_CHARSET: letters, digits, '-' and '.'. */
  const ShortUrlCharset: string := AsciiLetters + Digits + "-."

  /** len(SHORT_URL_CHARSET). */
  const CharsetSize: nat := 64

  /** The characters an identifier may contain, stated without the charset. */
  predicate IsIdChar(c: char) {
    ('a' <= c <= 'z') || ('A' <= c <= 'Z') || ('0' <= c <= '9') || c == '-' || c == '.'
  }

  predicate IsIdString(s: string) {
    forall i :: 0 <= i < |s| ==> IsIdChar(s[i])
  }

  /** The character at position `i` of the charset, by arithmetic on code points. */
  lemma CharsetAt(i: nat)
    requires i < CharsetSize
    ensures |ShortUrlCharset| == CharsetSize
    ensures ShortUrlCharset[i] as int ==
      if i < 26 then 'a' as int + i
      else if i < 52 then 'A' as int + (i - 26)
      else if i < 62 then '0' as int + (i - 52)
      else if i == 62 then '-' as int
      else '.' as int
  {
    assert |AsciiLetters| == 52;
    if i < 26 {
      assert ShortUrlCharset[i] == AsciiLetters[i] == AsciiLowercase[i];
    } else if i < 52 {
      assert ShortUrlCharset[i] == AsciiLetters[i] == AsciiUppercase[i - 26];
    } else if i < 62 {
      assert ShortUrlCharset[i] == (AsciiLetters + Digits)[i] == Digits[i - 52];
    }
  }

  /** The position of an identifier character in the charset: the inverse of
      indexing into it. */
  function CharIndex(c: char): (i: nat)
    requires IsIdChar(c)
    ensures i < CharsetSize
    ensures |ShortUrlCharset| == CharsetSize && ShortUrlCharset[i] == c
  {
    var i: nat :=
      if 'a' <= c <= 'z' then c as int - 'a' as int
      else if 'A' <= c <= 'Z' then 26 + (c as int - 'A' as int)
      else if '0' <= c <= '9' then 52 + (c as int - '0' as int)
      else if c == '-' then 62
      else 63;
    CharsetAt(i);
    i
  }

  /** The charset has exactly 64 characters, each an identifier character and
      each at its own position, so no character occurs twice. */
  lemma CharsetShape()
    ensures |ShortUrlCharset| == CharsetSize
    ensures forall i :: 0 <= i < CharsetSize ==>
      IsIdChar(ShortUrlCharset[i]) && CharIndex(ShortUrlCharset[i]) == i
    ensures forall i, j :: 0 <= i < j < CharsetSize ==> ShortUrlCharset[i] != ShortUrlCharset[j]
  {
    CharsetAt(0);
    forall i | 0 <= i < CharsetSize
      ensures IsIdChar(ShortUrlCharset[i]) && CharIndex(ShortUrlCharset[i]) == i
    {
      CharsetAt(i);
    }
  }

  /** A character is in the charset exactly when it is a letter, a digit, '-' or '.'. */
  lemma CharsetMembership(c: char)
    ensures c in ShortUrlCharset <==> IsIdChar(c)
  {
    CharsetShape();
    if IsIdChar(c) {
      var i := CharIndex(c);
    }
  }

  /** get_next_id: the identifier whose i-th character is
      random.choice(SHORT_URL_CHARSET), that is the charset character at the
      random index picks[i]. Its length is the number of draws. */
  function IdFromPicks(picks: seq<nat>): (id: string)
    requires forall i :: 0 <= i < |picks| ==> picks[i] < CharsetSize
    ensures |id| == |picks|
    ensures IsIdString(id)
    ensures forall i :: 0 <= i < |id| ==> CharIndex(id[i]) == picks[i]
  {
    CharsetShape();
    seq(|picks|, i requires 0 <= i < |picks| => ShortUrlCharset[picks[i]])
  }

  /** The draws that produce a given identifier. */
  function PicksOf(id: string): (picks: seq<nat>)
    requires IsIdString(id)
    ensures |picks| == |id|
    ensures forall i :: 0 <= i < |picks| ==> picks[i] < CharsetSize
  {
    seq(|id|, i requires 0 <= i < |id| => CharIndex(id[i]))
  }

  /** Every identifier over the charset is produced by exactly one sequence of
      draws: uniform draws give uniformly distributed identifiers. */
  lemma PicksRoundTrip(picks: seq<nat>, id: string)
    requires forall i :: 0 <= i < |picks| ==> picks[i] < CharsetSize
    requires IsIdString(id)
    ensures PicksOf(IdFromPicks(picks)) == picks
    ensures IdFromPicks(PicksOf(id)) == id
  {
    var p := PicksOf(id);
    var back := IdFromPicks(p);
    assert |back| == |id|;
    forall i | 0 <= i < |id| ensures back[i] == id[i] {
      CharsetShape();
      assert back[i] == ShortUrlCharset[p[i]];
    }
  }
}
