// The stored keymap as bytes: where a key's code lies in the block, what a
// write changes, and how an image travels in packets.
module KeymapBytes {
  type Code16 = bv16

  const MAX_LAYER := 8
  const PACKET := 60
  const PACKET_IDS := 256

  // Little-endian codes.
  function CodeOf(lo: bv8, hi: bv8): Code16 { (lo as bv16) + ((hi as bv16) << 8) }

  function Low(k: Code16): bv8 { (k & 0xFF) as bv8 }

  function High(k: Code16): bv8 { ((k >> 8) & 0xFF) as bv8 }

  lemma CodeRoundTrip(k: Code16)
    ensures CodeOf(Low(k), High(k)) == k
  {
  }

  lemma ZeroCode(lo: bv8, hi: bv8)
    ensures CodeOf(lo, hi) == 0 <==> lo == 0 && hi == 0
  {
  }

  // A product as a function of its own, so that proofs use only its laws.
  function Times(a: nat, n: nat): nat { a * n }

  lemma TimesNext(a: nat, b: nat, n: nat)
    requires a < b
    ensures Times(a, n) + n == Times(a + 1, n) <= Times(b, n)
  {
    MulMono(a + 1, b, n);
  }

  lemma MulMono(a: nat, b: nat, n: nat)
    requires a <= b
    ensures a * n <= b * n
  {
  }

  // KEYMAP_ROW_SIZE, KEYMAP_LAYER_SIZE and the size of the block, whole words.
  datatype Shape = Shape(rows: nat, cols: nat) {
    function RowSize(): nat { cols * 2 }

    function LayerSize(): nat { Times(rows, RowSize()) }

    function BlockSize(): nat { (LayerSize() * MAX_LAYER + 3) / 4 * 4 }

    function Index(l: nat, r: nat, c: nat): nat { Times(l, LayerSize()) + Times(r, RowSize()) + c * 2 }

    predicate Inside(l: nat, r: nat, c: nat) { l < MAX_LAYER && r < rows && c < cols }
  }

  lemma BlockIsKeys(s: Shape)
    ensures s.BlockSize() == MAX_LAYER * s.LayerSize()
  {
  }

  lemma RowFits(s: Shape, l: nat, r: nat, c: nat)
    requires s.Inside(l, r, c)
    ensures c * 2 + 2 <= s.RowSize()
    ensures Times(r, s.RowSize()) + s.RowSize() <= s.LayerSize()
    ensures s.Index(l, r, c) + 2 <= s.BlockSize()
  {
    hide Times;
    TimesNext(r, s.rows, s.RowSize());
    TimesNext(l, MAX_LAYER, s.LayerSize());
    BlockIsKeys(s);
    LayersTimes(s.LayerSize());
  }

  lemma LayersTimes(n: nat)
    ensures Times(MAX_LAYER, n) == MAX_LAYER * n
  {
  }

  // Two keys never share a byte.
  lemma KeysApart(s: Shape, l: nat, r: nat, c: nat, l': nat, r': nat, c': nat)
    requires s.Inside(l, r, c) && s.Inside(l', r', c') && (l, r, c) != (l', r', c')
    ensures s.Index(l, r, c) + 2 <= s.Index(l', r', c') || s.Index(l', r', c') + 2 <= s.Index(l, r, c)
  {
    hide Times, Shape.BlockSize, Shape.LayerSize;
    RowFits(s, l, r, c);
    RowFits(s, l', r', c');
    if l < l' {
      TimesNext(l, l', s.LayerSize());
    } else if l' < l {
      TimesNext(l', l, s.LayerSize());
    } else if r < r' {
      TimesNext(r, r', s.RowSize());
    } else if r' < r {
      TimesNext(r', r, s.RowSize());
    }
  }

  lemma Split(i: nat, n: nat, q: nat) returns (d: nat, m: nat)
    requires i < Times(q, n)
    ensures d < q && m < n && i == Times(d, n) + m
  {
    d, m := 0, i;
    while m >= n
      invariant d < q && i == Times(d, n) + m
      decreases m
    {
      TimesNext(d, d + 1, n);
      if d + 1 == q { return; }
      d, m := d + 1, m - n;
    }
  }

  // Every byte of the block belongs to a key.
  lemma ByteOfKey(s: Shape, i: nat) returns (l: nat, r: nat, c: nat)
    requires i < s.BlockSize()
    ensures s.Inside(l, r, c) && (i == s.Index(l, r, c) || i == s.Index(l, r, c) + 1)
  {
    hide Times;
    BlockIsKeys(s);
    LayersTimes(s.LayerSize());
    var j, m;
    l, j := Split(i, s.LayerSize(), MAX_LAYER);
    r, m := Split(j, s.RowSize(), s.rows);
    c := m / 2;
  }

  ghost predicate SomeByte(block: seq<bv8>) {
    exists i :: 0 <= i < |block| && block[i] != 0
  }

  function CodeAt(s: Shape, block: seq<bv8>, l: nat, r: nat, c: nat): Code16
    requires |block| == s.BlockSize() && s.Inside(l, r, c)
  {
    RowFits(s, l, r, c);
    CodeOf(block[s.Index(l, r, c)], block[s.Index(l, r, c) + 1])
  }

  ghost predicate SomeKey(s: Shape, block: seq<bv8>)
    requires |block| == s.BlockSize()
  {
    exists l, r, c | s.Inside(l, r, c) :: CodeAt(s, block, l, r, c) != 0
  }

  // A byte of the block is set exactly if some key has a code.
  lemma SomeByteIffSomeKey(s: Shape, block: seq<bv8>)
    requires |block| == s.BlockSize()
    ensures SomeByte(block) <==> SomeKey(s, block)
  {
    hide CodeOf;
    if SomeByte(block) {
      var i :| 0 <= i < |block| && block[i] != 0;
      var l, r, c := ByteOfKey(s, i);
      RowFits(s, l, r, c);
      ZeroCode(block[s.Index(l, r, c)], block[s.Index(l, r, c) + 1]);
      assert CodeAt(s, block, l, r, c) != 0;
    }
    if SomeKey(s, block) {
      var l, r, c :| s.Inside(l, r, c) && CodeAt(s, block, l, r, c) != 0;
      RowFits(s, l, r, c);
      ZeroCode(block[s.Index(l, r, c)], block[s.Index(l, r, c) + 1]);
    }
  }

  // storage_write_data and storage_read_data on the bytes of one area.
  function Fit(size: nat, offset: nat, len: nat): nat
    requires offset <= size
  {
    if size < len + offset then size - offset else len
  }

  function Written(block: seq<bv8>, offset: nat, data: seq<bv8>): (b: seq<bv8>)
    requires offset <= |block|
    ensures |b| == |block|
  {
    var n := Fit(|block|, offset, |data|);
    block[..offset] + data[..n] + block[offset + n..]
  }

  function ReadAt(block: seq<bv8>, offset: nat, len: nat): seq<bv8>
    requires offset <= |block|
  {
    block[offset..offset + Fit(|block|, offset, len)]
  }

  // Storing one key's code: that key has it, no other code changes.
  lemma SetKeyStores(s: Shape, block: seq<bv8>, l: nat, r: nat, c: nat, k: Code16,
                     l': nat, r': nat, c': nat)
    requires |block| == s.BlockSize() && s.Inside(l, r, c) && s.Inside(l', r', c')
    ensures s.Index(l, r, c) + 2 <= |block|
    ensures CodeAt(s, Written(block, s.Index(l, r, c), [Low(k), High(k)]), l', r', c') ==
            if (l', r', c') == (l, r, c) then k else CodeAt(s, block, l', r', c')
  {
    hide CodeOf, Low, High, Shape.Index, Shape.BlockSize, Shape.Inside;
    RowFits(s, l, r, c);
    RowFits(s, l', r', c');
    CodeRoundTrip(k);
    if (l', r', c') != (l, r, c) {
      KeysApart(s, l, r, c, l', r', c');
    }
  }

  // What action_for_key answers for a key of the matrix.
  ghost function Lookup(s: Shape, block: seq<bv8>, fallback: (nat, nat, nat) -> Code16,
                        l: nat, r: nat, c: nat): Code16
    requires |block| == s.BlockSize() && (s.Inside(l, r, c) || l >= s.LayerSize() || r >= s.rows || c >= s.cols)
  {
    if l >= s.LayerSize() || r >= s.rows || c >= s.cols then 0
    else if SomeByte(block) then CodeAt(s, block, l, r, c)
    else fallback(l, r, c)
  }

  // Another key than (l, r, c) has a code.
  ghost predicate OtherKey(s: Shape, block: seq<bv8>, l: nat, r: nat, c: nat)
    requires |block| == s.BlockSize()
  {
    exists l': nat, r': nat, c': nat | s.Inside(l', r', c') ::
      (l', r', c') != (l, r, c) && CodeAt(s, block, l', r', c') != 0
  }

  // Storing k leaves the store non-empty exactly if k or another key's code is
  // not 0.
  lemma SomeByteAfter(s: Shape, block: seq<bv8>, l: nat, r: nat, c: nat, k: Code16)
    requires |block| == s.BlockSize() && s.Inside(l, r, c)
    ensures s.Index(l, r, c) + 2 <= |block|
    ensures SomeByte(Written(block, s.Index(l, r, c), [Low(k), High(k)])) <==> k != 0 || OtherKey(s, block, l, r, c)
  {
    hide Written, Low, High, SomeByte, CodeAt, Shape.Index, Shape.BlockSize;
    SetKeyStores(s, block, l, r, c, k, l, r, c);
    var block' := Written(block, s.Index(l, r, c), [Low(k), High(k)]);
    SomeByteIffSomeKey(s, block');
    forall l': nat, r': nat, c': nat | s.Inside(l', r', c')
      ensures CodeAt(s, block', l', r', c') == if (l', r', c') == (l, r, c) then k else CodeAt(s, block, l', r', c')
    {
      SetKeyStores(s, block, l, r, c, k, l', r', c');
    }
    if OtherKey(s, block, l, r, c) {
      var l': nat, r': nat, c': nat :|
        s.Inside(l', r', c') && (l', r', c') != (l, r, c) && CodeAt(s, block, l', r', c') != 0;
      assert CodeAt(s, block', l', r', c') != 0;
    }
  }

  // Known before set_single_key: the key will answer the new code exactly if
  // that code or another key's is not 0, or the compiled-in code is 0 too;
  // another key will keep its answer exactly if the store is empty before and
  // after, or neither time, or its stored and compiled-in codes agree.
  lemma SetKeyAnswers(s: Shape, block: seq<bv8>, fallback: (nat, nat, nat) -> Code16,
                      l: nat, r: nat, c: nat, k: Code16, l': nat, r': nat, c': nat)
    requires |block| == s.BlockSize() && s.Inside(l, r, c) && s.Inside(l', r', c')
    requires l < s.LayerSize() && l' < s.LayerSize() && (l', r', c') != (l, r, c)
    ensures s.Index(l, r, c) + 2 <= |block|
    ensures var block' := Written(block, s.Index(l, r, c), [Low(k), High(k)]);
      && (Lookup(s, block', fallback, l, r, c) == k <==>
          k != 0 || OtherKey(s, block, l, r, c) || fallback(l, r, c) == 0)
      && (Lookup(s, block', fallback, l', r', c') == Lookup(s, block, fallback, l', r', c') <==>
          || SomeByte(block) == (k != 0 || OtherKey(s, block, l, r, c))
          || CodeAt(s, block, l', r', c') == fallback(l', r', c'))
  {
    hide Written, Low, High, SomeByte, CodeAt, OtherKey;
    SomeByteAfter(s, block, l, r, c, k);
    SetKeyStores(s, block, l, r, c, k, l, r, c);
    SetKeyStores(s, block, l, r, c, k, l', r', c');
  }

  // ----- Whole images in packets -----

  function PacketAt(image: seq<bv8>, i: nat): seq<bv8>
    requires i * PACKET <= |image|
  {
    ReadAt(image, i * PACKET, PACKET)
  }

  function Packets(size: nat): nat { (size + PACKET - 1) / PACKET }

  function PacketId(i: nat): nat { i % PACKET_IDS }

  // The first n packets of an image sent with set_all_keys; the packet number
  // is one byte wide.
  function Uploaded(block: seq<bv8>, image: seq<bv8>, n: nat): (b: seq<bv8>)
    requires |image| == |block| && n <= Packets(|image|)
    ensures |b| == |block|
    decreases n
  {
    hide Written, Packets;
    PacketCount(|image|, n);
    if n == 0 then block
    else
      PacketOffset(n - 1);
      assert PacketId(n - 1) * PACKET <= (n - 1) * PACKET by { IdSmall(n - 1); }
      Written(Uploaded(block, image, n - 1), PacketId(n - 1) * PACKET, PacketAt(image, n - 1))
  }

  // The first n packets read back with get_all_keys.
  function Downloaded(block: seq<bv8>, n: nat): seq<bv8>
    requires n <= Packets(|block|)
    decreases n
  {
    PacketCount(|block|, n);
    if n == 0 then [] else Downloaded(block, n - 1) + PacketAt(block, n - 1)
  }

  function Min(a: nat, b: nat): nat { if a < b then a else b }

  lemma PacketCount(size: nat, n: nat)
    requires n <= Packets(size)
    ensures n > 0 ==> (n - 1) * PACKET < size
    ensures n == Packets(size) ==> size <= n * PACKET
    ensures size <= PACKET_IDS * PACKET ==> n <= PACKET_IDS
  {
  }

  lemma PacketOffset(i: nat)
    ensures PacketId(i) * PACKET + PACKET <= PACKET_IDS * PACKET
    ensures i < PACKET_IDS ==> PacketId(i) == i
  {
  }

  lemma IdSmall(i: nat)
    ensures PacketId(i) <= i
  {
  }

  // Writing the next piece of an image over a block that has the part before.
  lemma NextPiece(block: seq<bv8>, image: seq<bv8>, a: nat)
    requires |image| == |block| && a <= |image|
    ensures var b := Min(a + PACKET, |image|);
      Written(image[..a] + block[a..], a, ReadAt(image, a, PACKET)) == image[..b] + block[b..]
  {
    var b := Min(a + PACKET, |image|);
    assert ReadAt(image, a, PACKET) == image[a..b];
    assert image[..b] == image[..a] + image[a..b];
  }

  lemma WrittenBefore(block: seq<bv8>, offset: nat, data: seq<bv8>, top: nat)
    requires offset + |data| <= top <= |block|
    ensures Written(block, offset, data)[top..] == block[top..]
  {
  }

  lemma {:induction false} UploadedSoFar(block: seq<bv8>, image: seq<bv8>, n: nat)
    requires |image| == |block| <= PACKET_IDS * PACKET && n <= Packets(|image|)
    ensures var done := Min(n * PACKET, |image|);
      Uploaded(block, image, n) == image[..done] + block[done..]
  {
    hide Written, ReadAt, Packets, PacketId;
    if n > 0 {
      PacketCount(|image|, n - 1);
      PacketCount(|image|, n);
      PacketOffset(n - 1);
      UploadedSoFar(block, image, n - 1);
      NextPiece(block, image, (n - 1) * PACKET);
    }
  }

  lemma {:induction false} UploadKeepsTail(block: seq<bv8>, image: seq<bv8>, n: nat)
    requires |image| == |block| > PACKET_IDS * PACKET && n <= Packets(|image|)
    ensures Uploaded(block, image, n)[PACKET_IDS * PACKET..] == block[PACKET_IDS * PACKET..]
  {
    hide Written, Packets, PacketId;
    if n > 0 {
      PacketCount(|image|, n - 1);
      PacketCount(|image|, n);
      PacketOffset(n - 1);
      UploadKeepsTail(block, image, n - 1);
      WrittenBefore(Uploaded(block, image, n - 1), PacketId(n - 1) * PACKET, PacketAt(image, n - 1),
                    PACKET_IDS * PACKET);
    }
  }

  lemma UploadStores(block: seq<bv8>, image: seq<bv8>)
    requires |image| == |block| <= PACKET_IDS * PACKET
    ensures Uploaded(block, image, Packets(|image|)) == image
  {
    hide Uploaded, Packets;
    UploadedSoFar(block, image, Packets(|image|));
    PacketCount(|image|, Packets(|image|));
  }

  function Other(b: bv8): (r: bv8)
    ensures r != b
  {
    b ^ 1
  }

  // A block that the upload of a longer image does not replace.
  lemma UploadMisses(image: seq<bv8>) returns (block: seq<bv8>)
    requires |image| > PACKET_IDS * PACKET
    ensures |block| == |image| && Uploaded(block, image, Packets(|image|)) != image
  {
    hide Uploaded, Packets, Other;
    var last := |image| - 1;
    block := image[last := Other(image[last])];
    var up := Uploaded(block, image, Packets(|image|));
    UploadKeepsTail(block, image, Packets(|image|));
    var top := PACKET_IDS * PACKET;
    assert up[top..][last - top] == block[top..][last - top];
  }

  // Uploading an image replaces every block by it exactly if the packet
  // numbers fit a byte.
  lemma UploadStoresIff(image: seq<bv8>)
    ensures (forall block: seq<bv8> | |block| == |image| :: Uploaded(block, image, Packets(|image|)) == image)
            <==> |image| <= PACKET_IDS * PACKET
  {
    hide Uploaded, Packets;
    if |image| <= PACKET_IDS * PACKET {
      forall block: seq<bv8> | |block| == |image|
        ensures Uploaded(block, image, Packets(|image|)) == image
      {
        UploadStores(block, image);
      }
    } else {
      var block := UploadMisses(image);
    }
  }

  lemma {:induction false} DownloadedSoFar(block: seq<bv8>, n: nat)
    requires n <= Packets(|block|)
    ensures Downloaded(block, n) == block[..Min(n * PACKET, |block|)]
  {
    hide Packets;
    if n > 0 {
      PacketCount(|block|, n - 1);
      PacketCount(|block|, n);
      DownloadedSoFar(block, n - 1);
    }
  }

  // Reading back by offset returns the uploaded image, whatever was stored.
  lemma UploadDownload(block: seq<bv8>, image: seq<bv8>)
    requires |image| == |block| <= PACKET_IDS * PACKET
    ensures Downloaded(Uploaded(block, image, Packets(|image|)), Packets(|image|)) == image
  {
    hide Uploaded, Downloaded, Packets;
    UploadStores(block, image);
    DownloadedSoFar(image, Packets(|image|));
    PacketCount(|image|, Packets(|image|));
  }
}
