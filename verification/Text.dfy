/** Text as the gateway's string operations see it: a sequence of UTF-8 bytes, each written as one
    `char`. ASCII case mapping, prefix tests and lengths are all byte-wise in the source. */
module Text {
  datatype Option<+T> = None | Some(value: T)

  /** Only the 26 capital letters change, each to the letter it is the capital of. */
  function LowerChar(c: char): (r: char)
    ensures !('A' <= r <= 'Z')
    ensures if 'A' <= c <= 'Z' then UpperChar(r) == c && r != c else r == c
  {
    if 'A' <= c <= 'Z' then c + 32 as char else c
  }

  function UpperChar(c: char): char {
    if 'a' <= c <= 'z' then c - 32 as char else c
  }

  function Lower(s: string): (r: string)
    ensures |r| == |s|
    ensures forall i :: 0 <= i < |s| ==> r[i] == LowerChar(s[i])
  {
    seq(|s|, i requires 0 <= i < |s| => LowerChar(s[i]))
  }

  function Upper(s: string): (r: string)
    ensures |r| == |s|
    ensures forall i :: 0 <= i < |s| ==> r[i] == UpperChar(s[i])
  {
    seq(|s|, i requires 0 <= i < |s| => UpperChar(s[i]))
  }

  lemma LowerConcat(s: string, t: string)
    ensures Lower(s + t) == Lower(s) + Lower(t)
  {
  }

  lemma LowerAround(a: string, middle: string, b: string)
    ensures Lower(a + (middle + b)) == Lower(a) + (Lower(middle) + Lower(b))
  {
    LowerConcat(a, middle + b);
    LowerConcat(middle, b);
  }
}
