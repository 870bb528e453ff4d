/** Letter case over the characters the positions and statements are made of. */
module Text {

  function ToLower(c: char): char { if 'A' <= c <= 'Z' then c - 'A' + 'a' else c }

  function ToUpper(c: char): char { if 'a' <= c <= 'z' then c - 'a' + 'A' else c }

  function Lowered(s: string): (r: string)
    ensures |r| == |s| && forall i :: 0 <= i < |s| ==> r[i] == ToLower(s[i])
  {
    seq(|s|, i requires 0 <= i < |s| => ToLower(s[i]))
  }

  function Raised(s: string): (r: string)
    ensures |r| == |s| && forall i :: 0 <= i < |s| ==> r[i] == ToUpper(s[i])
  {
    seq(|s|, i requires 0 <= i < |s| => ToUpper(s[i]))
  }
}
