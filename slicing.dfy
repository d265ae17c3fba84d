/** Python's prefix slice `s[:stop]`, which both the feed and the summary code use. */
module Slicing {

  function Min(a: int, b: int): int { if a <= b then a else b }
  function Max(a: int, b: int): int { if a <= b then b else a }

  /** `s[:stop]`: a negative `stop` counts from the end, and any bound is clamped to the sequence. */
  function Prefix<T>(s: seq<T>, stop: int): (r: seq<T>)
    ensures r <= s
    ensures 0 <= stop ==> |r| == Min(stop, |s|)
    ensures stop < 0 ==> |r| == Max(|s| + stop, 0)
  {
    var end := if stop < 0 then Max(|s| + stop, 0) else Min(stop, |s|);
    s[..end]
  }
}
