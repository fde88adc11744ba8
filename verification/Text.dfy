/** Text as the scrubber sees it: Unicode scalar values, with lengths in UTF-8 bytes. */
module Text {

  datatype Option<+T> = None | Some(value: T)

  /** Bytes of one scalar value in UTF-8 (RFC 3629, section 3). */
  function Utf8Len(c: char): (n: nat)
    ensures 1 <= n <= 4
  {
    if c as int < 0x80 then 1
    else if c as int < 0x800 then 2
    else if c as int < 0x1_0000 then 3
    else 4
  }

  /** `str::len`: bytes, not characters. */
  function ByteLen(s: string): nat {
    if s == "" then 0 else Utf8Len(s[0]) + ByteLen(s[1..])
  }

  lemma Associates<T>(a: seq<T>, b: seq<T>, c: seq<T>)
    ensures a + (b + c) == (a + b) + c
  {
  }

  lemma FirstThenRest(x: string, t: string)
    requires |x| > 0
    ensures x + t == [x[0]] + (x[1..] + t)
  {
  }

  lemma CutSuffix(s: string, i: nat, e: nat)
    requires i <= e <= |s|
    ensures s[i..][..e - i] == s[i..e] && s[i..][e - i..] == s[e..]
  {
  }

  lemma {:induction false} ByteLenAppend(a: string, b: string)
    ensures ByteLen(a + b) == ByteLen(a) + ByteLen(b)
  {
    if a == "" {
      assert a + b == b;
    } else {
      assert (a + b)[1..] == a[1..] + b;
      ByteLenAppend(a[1..], b);
    }
  }

  /** A span measured through any intermediate position. */
  lemma ByteLenSpan(s: string, i: nat, m: nat, e: nat)
    requires i <= m <= e <= |s|
    ensures ByteLen(s[i..e]) == ByteLen(s[i..m]) + ByteLen(s[m..e])
  {
    assert s[i..e] == s[i..m] + s[m..e];
    ByteLenAppend(s[i..m], s[m..e]);
  }

  lemma {:induction false} ByteLenZero(s: string)
    ensures ByteLen(s) == 0 <==> s == ""
  {
  }

  /** The text a list of chunks spells. */
  function Join(chunks: seq<string>): string {
    if chunks == [] then "" else chunks[0] + Join(chunks[1..])
  }
}
