// An image of the keymap and what the keys mean after it has been uploaded: a
// layer after the other, row by row, two bytes a key, the low one first.
module KeymapImage {
  import opened KeymapBytes
  import opened KeymapStore

  lemma Distributes(a: nat, b: nat, c: nat)
    ensures (a + b) * c == a * c + b * c
  {
  }

  lemma Associates(a: nat, b: nat, c: nat)
    ensures a * (b * (c * 2)) == 2 * ((a * b) * c)
  {
  }

  lemma Doubles(a: nat, b: nat)
    ensures a * (b * 2) == 2 * (a * b)
  {
  }

  // Where the code of a key stands: two bytes a key, row-major.
  function Place(s: Shape, l: nat, r: nat, c: nat): nat { 2 * ((l * s.rows + r) * s.cols + c) }

  // The packed index is that place.
  lemma IndexIs(s: Shape, l: nat, r: nat, c: nat)
    ensures s.Index(l, r, c) == Place(s, l, r, c)
  {
    Associates(l, s.rows, s.cols);
    Doubles(r, s.cols);
    Distributes(l * s.rows, r, s.cols);
  }

  lemma CodeIs(lo: bv8, hi: bv8)
    ensures CodeOf(lo, hi) == (lo as bv16) + 256 * (hi as bv16)
  {
  }

  // With an image stored that has some byte set, a key of the matrix has the
  // code at its place in the image; the guard on the layer is by the size of a
  // layer in bytes.
  lemma ImageMeans(s: Shape, image: seq<bv8>, fallback: (nat, nat, nat) -> Code16, l: nat, r: nat, c: nat)
    requires |image| == s.BlockSize() && s.Inside(l, r, c) && (exists i :: 0 <= i < |image| && image[i] != 0)
    ensures var o := Place(s, l, r, c);
      && o + 1 < |image|
      && (Lookup(s, image, fallback, l, r, c) ==
          if l < 2 * (s.rows * s.cols) then (image[o] as bv16) + 256 * (image[o + 1] as bv16) else 0)
  {
    hide CodeOf, Shape.Index, Shape.BlockSize;
    IndexIs(s, l, r, c);
    RowFits(s, l, r, c);
    Doubles(s.rows, s.cols);
    CodeIs(image[s.Index(l, r, c)], image[s.Index(l, r, c) + 1]);
    assert SomeByte(image);
  }

  // The same for the image as uploaded in packets.
  lemma UploadedMeans(s: Shape, block: seq<bv8>, image: seq<bv8>, fallback: (nat, nat, nat) -> Code16,
                      l: nat, r: nat, c: nat)
    requires |block| == |image| == s.BlockSize() <= PACKET_IDS * PACKET && s.Inside(l, r, c)
    requires exists i :: 0 <= i < |image| && image[i] != 0
    ensures var o := Place(s, l, r, c);
      && o + 1 < |image|
      && (Lookup(s, Uploaded(block, image, Packets(|image|)), fallback, l, r, c) ==
          if l < 2 * (s.rows * s.cols) then (image[o] as bv16) + 256 * (image[o + 1] as bv16) else 0)
  {
    hide Uploaded, Packets, Lookup, Shape.BlockSize;
    UploadStores(block, image);
    ImageMeans(s, image, fallback, l, r, c);
  }

  // set_all_keys for every packet of the image.
  method Upload(store: Store, image: seq<bv8>)
    requires store.Valid() && |image| == store.keymapBlock.Length <= PACKET_IDS * PACKET
    modifies store`keymapValid, store.keymapBlock, store.macroBlock, store.configBlock
    ensures store.Valid() && store.keymapBlock[..] == image
    ensures store.macroBlock[..] == old(store.macroBlock[..]) && store.configBlock[..] == old(store.configBlock[..])
  {
    hide Written, Packets, ReadAt, SomeByte, Shape.BlockSize;
    ghost var block := store.keymapBlock[..];
    var n := Packets(|image|);
    for i := 0 to n
      invariant store.Valid() && store.keymapBlock[..] == Uploaded(block, image, i)
      invariant store.macroBlock[..] == old(store.macroBlock[..])
      invariant store.configBlock[..] == old(store.configBlock[..])
    {
      PacketCount(|image|, i + 1);
      PacketOffset(i);
      var _ := store.SetAllKeys(PacketId(i), PacketAt(image, i));
    }
    UploadStores(block, image);
  }

  // Uploading an image with some byte set and pressing a key of the matrix.
  method UploadAndLookUp(store: Store, image: seq<bv8>, l: nat, r: nat, c: nat) returns (action: Code16)
    requires store.Valid() && |image| == store.keymapBlock.Length <= PACKET_IDS * PACKET
    requires store.shape.Inside(l, r, c) && exists i :: 0 <= i < |image| && image[i] != 0
    modifies store`keymapValid, store.keymapBlock, store.macroBlock, store.configBlock
    ensures var o := Place(store.shape, l, r, c);
      && o + 1 < |image|
      && (action == if l < 2 * (store.shape.rows * store.shape.cols)
                           then (image[o] as bv16) + 256 * (image[o + 1] as bv16) else 0)
  {
    hide Shape.BlockSize, SomeByte, Lookup;
    Upload(store, image);
    action := store.ActionForKey(l, r, c);
    ImageMeans(store.shape, image, store.actionmaps, l, r, c);
  }

  // What set_single_key writes, byte by byte.
  lemma SetKeyBytes(s: Shape, block: seq<bv8>, l: nat, r: nat, c: nat, k: Code16)
    requires |block| == s.BlockSize() && s.Inside(l, r, c)
    ensures s.Index(l, r, c) + 2 <= |block|
    ensures var o := Place(s, l, r, c);
      var b := Written(block, s.Index(l, r, c), [Low(k), High(k)]);
      && o + 1 < |b| && k == (b[o] as bv16) + 256 * (b[o + 1] as bv16)
      && forall i :: 0 <= i < |b| && i != o && i != o + 1 ==> b[i] == block[i]
  {
    hide Shape.Index, Shape.BlockSize, Low, High, CodeOf;
    RowFits(s, l, r, c);
    IndexIs(s, l, r, c);
    CodeRoundTrip(k);
    CodeIs(Low(k), High(k));
  }
}
