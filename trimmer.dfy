/**
 * The label trimmer of the course-hierarchy renderer: shortens a display label
 * to a configured number of characters, keeping its start, its end, or both,
 * and marking the cut with an ellipsis. Characters are counted one by one.
 */
module Trimmer {

  /** The block's trim settings; any other stored value is Unrecognised. */
  datatype TrimMode = TrimRight | TrimLeft | TrimCenter | Unrecognised(code: int)

  const Ellipsis: string := "..."

  predicate IsPrefix(p: string, s: string)
  {
    |p| <= |s| && p == s[..|p|]
  }

  predicate IsSuffix(p: string, s: string)
  {
    |p| <= |s| && p == s[|s| - |p|..]
  }

  /** ceil(n / 2) */
  function Half(n: nat): (h: nat)
    ensures h + h == n || h + h == n + 1
  {
    (n + 1) / 2
  }

  /**
   * Trims `text` under `mode` with length `n`. A text of at most n + 3
   * characters is kept, and so is every text under an unrecognised mode.
   * Otherwise the right mode keeps the first n characters, the left mode the
   * last n, and the center mode the first ceil(n/2) and the last n (the tail
   * is n characters long, not n - ceil(n/2)).
   */
  function Trim(text: string, mode: TrimMode, n: nat): (r: string)
    ensures |text| <= n + 3 || mode.Unrecognised? ==> r == text
    ensures mode == TrimRight && |text| > n + 3 ==>
      |r| == n + 3 && IsPrefix(r[..n], text) && r[n..] == Ellipsis
    ensures mode == TrimLeft && |text| > n + 3 ==>
      |r| == n + 3 && r[..3] == Ellipsis && IsSuffix(r[3..], text)
    ensures mode == TrimCenter && |text| > n + 3 ==>
      && |r| == Half(n) + 3 + n
      && IsPrefix(r[..Half(n)], text)
      && r[Half(n)..Half(n) + 3] == Ellipsis
      && IsSuffix(r[Half(n) + 3..], text)
  {
    match mode
    case TrimRight =>
      if |text| > n + 3 then text[..n] + Ellipsis else text
    case TrimLeft =>
      if |text| > n + 3 then Ellipsis + text[|text| - n..] else text
    case TrimCenter =>
      if |text| > n + 3 then text[..Half(n)] + Ellipsis + text[|text| - n..] else text
    case Unrecognised(_) =>
      text
  }

  /** Under the right and left modes a label is changed exactly when it is longer than n + 3. */
  lemma TrimChangesIffLong(text: string, mode: TrimMode, n: nat)
    requires mode == TrimRight || mode == TrimLeft
    ensures Trim(text, mode, n) != text <==> |text| > n + 3
    ensures |Trim(text, mode, n)| <= |text|
  {
  }

  /**
   * Trimming a trimmed label again changes nothing, in every mode: the right
   * and left results are short enough to be kept, and the center result is
   * cut back into the same head, ellipsis and tail.
   */
  lemma TrimIdempotent(text: string, mode: TrimMode, n: nat)
    ensures Trim(Trim(text, mode, n), mode, n) == Trim(text, mode, n)
  {
    if mode == TrimCenter && |text| > n + 3 {
      var once := Trim(text, mode, n);
      assert once[..Half(n)] == text[..Half(n)];
      assert once[|once| - n..] == text[|text| - n..];
    }
  }

  /**
   * Because the tail keeps n characters, the center mode makes every label
   * whose length lies strictly between n + 3 and ceil(n/2) + n + 3 longer.
   */
  lemma CenterTrimLengthens(text: string, n: nat)
    requires n + 3 < |text| < Half(n) + n + 3
    ensures |Trim(text, TrimCenter, n)| > |text|
  {
  }
}
