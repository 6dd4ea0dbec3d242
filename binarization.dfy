/**
 * The binarization filter (`binarization` in src/editor/binarization.rs):
 * one pass over an RGBA byte buffer that turns every colour channel into
 * black or white and leaves every alpha channel alone.
 */
module Binarization {
  import opened ImageData

  /** A channel brighter than this becomes 255; this value and anything darker becomes 0. */
  const Threshold: Byte := 128

  /** Byte `i` of an RGBA buffer is an alpha channel. */
  predicate IsAlpha(i: nat) {
    i % 4 == 3
  }

  /**
   * The buffer after the pass, defined the way the pass goes: the result on
   * the first `n` bytes, followed by byte `n` transformed. Its contract says
   * what every output byte is in terms of its own index and input byte alone.
   */
  function Binarized(s: seq<Byte>): (r: seq<Byte>)
    ensures |r| == |s|
    ensures forall i :: 0 <= i < |s| && IsAlpha(i) ==> r[i] == s[i]
    ensures forall i :: 0 <= i < |s| && !IsAlpha(i) && s[i] > Threshold ==> r[i] == 255
    ensures forall i :: 0 <= i < |s| && !IsAlpha(i) && s[i] <= Threshold ==> r[i] == 0
    decreases |s|
  {
    if s == [] then
      []
    else
      var n := |s| - 1;
      var b := if IsAlpha(n) then s[n] else if s[n] > Threshold then 255 else 0;
      Binarized(s[..n]) + [b]
  }

  /** After the pass every colour channel is black or white. */
  lemma BinarizedIsTwoValued(s: seq<Byte>)
    ensures forall i :: 0 <= i < |s| && !IsAlpha(i) ==> Binarized(s)[i] in {0, 255}
  {
  }

  /** A second pass changes nothing. */
  lemma BinarizedIdempotent(s: seq<Byte>)
    ensures Binarized(Binarized(s)) == Binarized(s)
  {
  }

  /** Each output byte depends only on its index and its own input byte. */
  lemma BinarizedIsLocal(s: seq<Byte>, t: seq<Byte>, i: nat)
    requires i < |s| && i < |t| && s[i] == t[i]
    ensures Binarized(s)[i] == Binarized(t)[i]
  {
  }

  /** One pixel: dark red, bright green, dark blue, opaque. */
  lemma BinarizedPixel()
    ensures Binarized([10, 200, 50, 255]) == [0, 255, 0, 255]
    ensures Binarized([128, 129, 0, 7]) == [0, 255, 0, 7]
  {
  }

  /** The pass itself, overwriting the buffer in place. */
  method Binarization(imageData: array<Byte>)
    modifies imageData
    ensures imageData[..] == Binarized(old(imageData[..]))
  {
    ghost var want := Binarized(imageData[..]);
    for i := 0 to imageData.Length
      invariant forall k :: 0 <= k < i ==> imageData[k] == want[k]
      invariant forall k :: i <= k < imageData.Length ==> imageData[k] == old(imageData[k])
    {
      if i % 4 == 3 {
        continue;
      }
      if imageData[i] > Threshold {
        imageData[i] := 255;
      } else {
        imageData[i] := 0;
      }
    }
  }
}
