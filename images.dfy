/** Decoded RGBA images: four 8-bit planes of equal size, one per channel. */
module Images {

  /** The four channels of an RGBA image. */
  datatype Channel = R | G | B | A

  /** The fixed order in which channels are split, remapped and merged. */
  const Order: seq<Channel> := [R, G, B, A]

  /** One value per channel: a channel-source map, invert flags, or the planes of an image. */
  datatype PerChannel<T> = PerChannel(r: T, g: T, b: T, a: T) {
    function Get(c: Channel): T {
      match c
      case R => r
      case G => g
      case B => b
      case A => a
    }
  }

  /** Every output channel reads its own source channel. */
  const IdentityMap: PerChannel<Channel> := PerChannel(R, G, B, A)

  /** No channel is inverted. */
  const NoInvert: PerChannel<bool> := PerChannel(false, false, false, false)

  predicate IsSample(v: int) {
    0 <= v <= 255
  }

  /** A plane of `n` pixels, each an 8-bit sample. */
  predicate ValidPlane(p: seq<int>, n: nat) {
    |p| == n && forall i :: 0 <= i < |p| ==> IsSample(p[i])
  }

  datatype Size = Size(width: nat, height: nat)

  /** An image in RGBA mode; planes are stored row by row. */
  datatype Image = Image(width: nat, height: nat, planes: PerChannel<seq<int>>) {

    function Dimensions(): Size {
      Size(width, height)
    }

    /** Each of the four planes holds width * height 8-bit samples. */
    predicate Valid() {
      forall c: Channel :: ValidPlane(planes.Get(c), width * height)
    }
  }
}
