/** Channel split, remap, invert and merge of an RGBA image. */
module Channels {
  import opened Images

  /**
   * ImageOps.invert on one 8-bit plane: every sample v becomes 255 - v.
   */
  function InvertPlane(p: seq<int>): (q: seq<int>)
    ensures |q| == |p|
    ensures forall i :: 0 <= i < |p| ==> p[i] + q[i] == 255
  {
    seq(|p|, i requires 0 <= i < |p| => 255 - p[i])
  }

  /** Inverting keeps a plane's size and every sample in 0..255. */
  lemma InvertPlaneKeepsRange(p: seq<int>, n: nat)
    requires ValidPlane(p, n)
    ensures ValidPlane(InvertPlane(p), n)
  {
  }

  /** Inverting twice gives back the original plane. */
  lemma InvertPlaneInvolutive(p: seq<int>)
    ensures InvertPlane(InvertPlane(p)) == p
  {
    var q := InvertPlane(InvertPlane(p));
    assert |q| == |p|;
    forall i | 0 <= i < |p|
      ensures q[i] == p[i]
    {
    }
  }

  /**
   * The plane that output channel `c` receives: the source plane named by
   * channelMap[c], complemented when invert[c] is set.
   */
  function OutputPlane(channelMap: PerChannel<Channel>, invert: PerChannel<bool>, img: Image, c: Channel): (plane: seq<int>)
    ensures var source := img.planes.Get(channelMap.Get(c));
      && |plane| == |source|
      && forall i :: 0 <= i < |plane| ==> plane[i] == (if invert.Get(c) then 255 - source[i] else source[i])
  {
    var plane := img.planes.Get(channelMap.Get(c));
    if invert.Get(c) then InvertPlane(plane) else plane
  }

  /** The remapped image: the same size, each channel built by OutputPlane. */
  function Remap(channelMap: PerChannel<Channel>, invert: PerChannel<bool>, img: Image): (out: Image)
    ensures out.width == img.width && out.height == img.height
  {
    Image(img.width, img.height, PerChannel(
      OutputPlane(channelMap, invert, img, R),
      OutputPlane(channelMap, invert, img, G),
      OutputPlane(channelMap, invert, img, B),
      OutputPlane(channelMap, invert, img, A)))
  }

  /**
   * Image.merge('RGBA', planes): the four planes, in channel order, as one image.
   */
  function Merge(width: nat, height: nat, planes: seq<seq<int>>): (img: Image)
    requires |planes| == |Order|
    ensures img.width == width && img.height == height
    ensures forall k :: 0 <= k < |Order| ==> img.planes.Get(Order[k]) == planes[k]
  {
    Image(width, height, PerChannel(planes[0], planes[1], planes[2], planes[3]))
  }

  /**
   * The split / remap / invert / merge step of process_image: walks the output
   * channels in the order R, G, B, A, picks each one's source plane, inverts it
   * when asked, and merges the four planes.
   */
  method RemapChannels(channelMap: PerChannel<Channel>, invert: PerChannel<bool>, img: Image) returns (out: Image)
    ensures out == Remap(channelMap, invert, img)
  {
    var newChannels: seq<seq<int>> := [];
    for k := 0 to |Order|
      invariant |newChannels| == k
      invariant forall j :: 0 <= j < k ==> newChannels[j] == OutputPlane(channelMap, invert, img, Order[j])
    {
      var c := Order[k];
      var plane := img.planes.Get(channelMap.Get(c));
      if invert.Get(c) {
        plane := InvertPlane(plane);
      }
      newChannels := newChannels + [plane];
    }
    out := Merge(img.width, img.height, newChannels);
  }

  /**
   * Sample by sample: output channel c at pixel i is the source channel's sample,
   * complemented exactly when c's invert flag is set.
   */
  lemma RemapSample(channelMap: PerChannel<Channel>, invert: PerChannel<bool>, img: Image, c: Channel, i: nat)
    requires img.Valid() && i < img.width * img.height
    ensures var out, src := Remap(channelMap, invert, img), img.planes.Get(channelMap.Get(c));
      && i < |out.planes.Get(c)|
      && out.planes.Get(c)[i] == if invert.Get(c) then 255 - src[i] else src[i]
  {
    assert ValidPlane(img.planes.Get(channelMap.Get(c)), img.width * img.height);
  }

  /** Remapping a well-formed image gives a well-formed image of the same size. */
  lemma RemapKeepsValid(channelMap: PerChannel<Channel>, invert: PerChannel<bool>, img: Image)
    requires img.Valid()
    ensures Remap(channelMap, invert, img).Valid()
    ensures Remap(channelMap, invert, img).Dimensions() == img.Dimensions()
  {
    var out := Remap(channelMap, invert, img);
    forall c: Channel
      ensures ValidPlane(out.planes.Get(c), img.width * img.height)
    {
      var src := img.planes.Get(channelMap.Get(c));
      assert ValidPlane(src, img.width * img.height);
      if invert.Get(c) {
        InvertPlaneKeepsRange(src, img.width * img.height);
      }
    }
  }

  /** With the identity map and no inversion, every plane is passed through unchanged. */
  lemma RemapIdentity(img: Image)
    ensures Remap(IdentityMap, NoInvert, img) == img
  {
  }

  /** Fan-out: two output channels with the same source and the same invert flag get identical planes. */
  lemma RemapFanOut(channelMap: PerChannel<Channel>, invert: PerChannel<bool>, img: Image, c1: Channel, c2: Channel)
    requires channelMap.Get(c1) == channelMap.Get(c2) && invert.Get(c1) == invert.Get(c2)
    ensures Remap(channelMap, invert, img).planes.Get(c1) == Remap(channelMap, invert, img).planes.Get(c2)
  {
  }

  /** The channel map of remapping by `first`, then by `second`. */
  function ComposeMaps(first: PerChannel<Channel>, second: PerChannel<Channel>): (m: PerChannel<Channel>)
    ensures forall c: Channel :: m.Get(c) == first.Get(second.Get(c))
  {
    PerChannel(first.Get(second.r), first.Get(second.g), first.Get(second.b), first.Get(second.a))
  }

  /** The invert flags of remapping by `first`, then by `second`: the two inversions cancel. */
  function ComposeInverts(firstInvert: PerChannel<bool>, secondMap: PerChannel<Channel>, secondInvert: PerChannel<bool>): (v: PerChannel<bool>)
    ensures forall c: Channel :: v.Get(c) == (secondInvert.Get(c) != firstInvert.Get(secondMap.Get(c)))
  {
    PerChannel(
      secondInvert.r != firstInvert.Get(secondMap.r),
      secondInvert.g != firstInvert.Get(secondMap.g),
      secondInvert.b != firstInvert.Get(secondMap.b),
      secondInvert.a != firstInvert.Get(secondMap.a))
  }

  lemma RemapPlane(channelMap: PerChannel<Channel>, invert: PerChannel<bool>, img: Image, c: Channel)
    ensures Remap(channelMap, invert, img).planes.Get(c) == OutputPlane(channelMap, invert, img, c)
  {
  }

  lemma OutputPlaneCompose(m1: PerChannel<Channel>, i1: PerChannel<bool>, m2: PerChannel<Channel>, i2: PerChannel<bool>, img: Image, c: Channel)
    ensures OutputPlane(m2, i2, Remap(m1, i1, img), c)
         == OutputPlane(ComposeMaps(m1, m2), ComposeInverts(i1, m2, i2), img, c)
  {
    var s := m2.Get(c);
    var src := img.planes.Get(m1.Get(s));
    RemapPlane(m1, i1, img, s);
    var mid := OutputPlane(m1, i1, img, s);
    assert mid == if i1.Get(s) then InvertPlane(src) else src;
    var composedMap, composedInvert := ComposeMaps(m1, m2), ComposeInverts(i1, m2, i2);
    assert composedMap.Get(c) == m1.Get(s);
    assert composedInvert.Get(c) == (i2.Get(c) != i1.Get(s));
    if i1.Get(s) && i2.Get(c) {
      InvertPlaneInvolutive(src);
    }
  }

  /** Remapping twice is one remap by the composed map and flags. */
  lemma RemapCompose(m1: PerChannel<Channel>, i1: PerChannel<bool>, m2: PerChannel<Channel>, i2: PerChannel<bool>, img: Image)
    ensures Remap(m2, i2, Remap(m1, i1, img)) == Remap(ComposeMaps(m1, m2), ComposeInverts(i1, m2, i2), img)
  {
    OutputPlaneCompose(m1, i1, m2, i2, img, R);
    OutputPlaneCompose(m1, i1, m2, i2, img, G);
    OutputPlaneCompose(m1, i1, m2, i2, img, B);
    OutputPlaneCompose(m1, i1, m2, i2, img, A);
  }

  /** Applying the same invert-only remap twice restores the image. */
  lemma RemapInvertTwice(invert: PerChannel<bool>, img: Image)
    ensures Remap(IdentityMap, invert, Remap(IdentityMap, invert, img)) == img
  {
    RemapCompose(IdentityMap, invert, IdentityMap, invert, img);
    assert ComposeMaps(IdentityMap, IdentityMap) == IdentityMap;
    assert ComposeInverts(invert, IdentityMap, invert) == NoInvert;
    RemapIdentity(img);
  }
}
