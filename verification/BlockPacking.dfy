/**
 How `handle_recv` hands a bundle's extension blocks to the application: one pass counts what
 will be kept, one allocation holds the descriptors and all the data, and a second pass fills
 both by advancing a descriptor pointer and a data pointer.
 */
module BlockPacking {
  import opened Bytes

  const PRIMARY_BLOCK: nat := 0x000
  const PAYLOAD_BLOCK: nat := 0x001
  const METADATA_BLOCK: nat := 0x008

  datatype Block = Block(kind: nat, flags: nat, data: seq<Byte>)

  /** One `dtn_extension_block_t`; `at` is where its data starts in the data area. */
  datatype Descriptor = Descriptor(kind: nat, flags: nat, length: nat, at: nat)

  /** Which blocks a pass skips: metadata lists are copied whole. */
  datatype Filter = Extensions | Everything

  predicate Kept(f: Filter, b: Block) {
    f.Everything? || (b.kind != PRIMARY_BLOCK && b.kind != PAYLOAD_BLOCK && b.kind != METADATA_BLOCK)
  }

  function Keep(f: Filter, bs: seq<Block>): (r: seq<Block>)
    ensures |r| <= |bs|
  {
    if bs == [] then []
    else
      var n := |bs| - 1;
      Keep(f, bs[..n]) + (if Kept(f, bs[n]) then [bs[n]] else [])
  }

  function Total(bs: seq<Block>): (n: nat) {
    if bs == [] then 0 else Total(bs[..|bs| - 1]) + |bs[|bs| - 1].data|
  }

  /** The descriptors of `bs` when their data is laid out back to back. */
  function Layout(bs: seq<Block>): (r: seq<Descriptor>)
    ensures |r| == |bs|
  {
    if bs == [] then []
    else
      var n := |bs| - 1;
      Layout(bs[..n]) + [Descriptor(bs[n].kind, bs[n].flags, |bs[n].data|, Total(bs[..n]))]
  }

  function Flatten(bs: seq<Block>): (r: seq<Byte>)
    ensures |r| == Total(bs)
  {
    if bs == [] then [] else Flatten(bs[..|bs| - 1]) + bs[|bs| - 1].data
  }

  lemma AppendBlock(bs: seq<Block>, b: Block)
    ensures Total(bs + [b]) == Total(bs) + |b.data|
    ensures Layout(bs + [b]) == Layout(bs) + [Descriptor(b.kind, b.flags, |b.data|, Total(bs))]
    ensures Flatten(bs + [b]) == Flatten(bs) + b.data
  {
    assert (bs + [b])[..|bs|] == bs;
  }

  lemma {:induction false} TotalAppend(a: seq<Block>, b: seq<Block>)
    ensures Total(a + b) == Total(a) + Total(b)
  {
    if b == [] {
      assert a + b == a;
    } else {
      var n := |b| - 1;
      assert a + b == (a + b[..n]) + [b[n]];
      AppendBlock(a + b[..n], b[n]);
      TotalAppend(a, b[..n]);
    }
  }

  lemma Associate(a: seq<Block>, b: seq<Block>, c: seq<Block>)
    ensures (a + b) + c == a + (b + c)
  {
  }

  lemma KeepPrefix(f: Filter, bs: seq<Block>, i: nat)
    requires i < |bs|
    ensures Keep(f, bs[..i + 1]) == Keep(f, bs[..i]) + (if Kept(f, bs[i]) then [bs[i]] else [])
  {
    assert bs[..i + 1][..i] == bs[..i];
  }

  /** What is kept of a prefix needs no more room than what is kept of the whole. */
  lemma {:induction false} KeepMonotone(f: Filter, bs: seq<Block>, i: nat)
    requires i <= |bs|
    ensures |Keep(f, bs[..i])| <= |Keep(f, bs)| && Total(Keep(f, bs[..i])) <= Total(Keep(f, bs))
    decreases |bs| - i
  {
    if i == |bs| {
      assert bs[..i] == bs;
    } else {
      KeepPrefix(f, bs, i);
      AppendBlock(Keep(f, bs[..i]), bs[i]);
      assert Keep(f, bs[..i]) + [] == Keep(f, bs[..i]);
      KeepMonotone(f, bs, i + 1);
    }
  }

  // ---------------------------------------------------------------- what a layout means

  /** Reads the blocks back through their descriptors, as the application does. */
  predicate Describes(ds: seq<Descriptor>, data: seq<Byte>, bs: seq<Block>) {
    && |ds| == |bs|
    && (forall k :: 0 <= k < |ds| ==>
          && ds[k].at + ds[k].length <= |data|
          && Block(ds[k].kind, ds[k].flags, data[ds[k].at..ds[k].at + ds[k].length]) == bs[k])
  }

  /** The regions are disjoint and in order, start at zero, and leave no gap and no remainder. */
  predicate Tiles(ds: seq<Descriptor>, size: nat) {
    && (ds == [] ==> size == 0)
    && (ds != [] ==> ds[0].at == 0 && ds[|ds| - 1].at + ds[|ds| - 1].length == size)
    && (forall k :: 0 <= k < |ds| - 1 ==> ds[k].at + ds[k].length == ds[k + 1].at)
  }

  lemma DescribesAppend(ds: seq<Descriptor>, data: seq<Byte>, bs: seq<Block>, b: Block)
    requires Describes(ds, data, bs)
    ensures Describes(ds + [Descriptor(b.kind, b.flags, |b.data|, |data|)], data + b.data, bs + [b])
  {
    forall k | 0 <= k < |ds|
      ensures (data + b.data)[ds[k].at..ds[k].at + ds[k].length] == data[ds[k].at..ds[k].at + ds[k].length]
    {
    }
    assert (data + b.data)[|data|..|data| + |b.data|] == b.data;
  }

  lemma {:induction false} LayoutDescribes(bs: seq<Block>)
    ensures Describes(Layout(bs), Flatten(bs), bs)
    ensures Tiles(Layout(bs), Total(bs))
  {
    if bs != [] {
      var n := |bs| - 1;
      LayoutDescribes(bs[..n]);
      DescribesAppend(Layout(bs[..n]), Flatten(bs[..n]), bs[..n], bs[n]);
      assert bs[..n] + [bs[n]] == bs;
    }
  }

  // ---------------------------------------------------------------- the two passes

  /** First pass over one list: how many blocks, and how many bytes of data. */
  method Count(f: Filter, bs: seq<Block>, found0: nat, length0: nat) returns (found: nat, length: nat)
    ensures found == found0 + |Keep(f, bs)|
    ensures length == length0 + Total(Keep(f, bs))
  {
    found, length := found0, length0;
    for i := 0 to |bs|
      invariant found == found0 + |Keep(f, bs[..i])|
      invariant length == length0 + Total(Keep(f, bs[..i]))
    {
      KeepPrefix(f, bs, i);
      if Kept(f, bs[i]) {
        AppendBlock(Keep(f, bs[..i]), bs[i]);
        found := found + 1;
        length := length + |bs[i].data|;
      } else {
        assert Keep(f, bs[..i]) + [] == Keep(f, bs[..i]);
      }
    }
    assert bs[..|bs|] == bs;
  }

  /** `done` is laid out at the front of the two areas. */
  ghost predicate Holds(ds: seq<Descriptor>, data: seq<Byte>, done: seq<Block>) {
    && |done| <= |ds| && ds[..|done|] == Layout(done)
    && Total(done) <= |data| && data[..Total(done)] == Flatten(done)
  }

  /** Adding a descriptor and its data behind what is there extends the layout. */
  lemma HoldsOneMore(ds: seq<Descriptor>, data: seq<Byte>, ds': seq<Descriptor>, data': seq<Byte>, done: seq<Block>, b: Block)
    requires Holds(ds, data, done) && |done| < |ds'| && Total(done) + |b.data| <= |data'|
    requires ds'[..|done|] == ds[..|done|] && ds'[|done|] == Descriptor(b.kind, b.flags, |b.data|, Total(done))
    requires data'[..Total(done)] == data[..Total(done)]
    requires data'[Total(done)..Total(done) + |b.data|] == b.data
    ensures Holds(ds', data', done + [b])
  {
    AppendBlock(done, b);
    var dp := Total(done);
    assert data'[..dp + |b.data|] == data'[..dp] + data'[dp..dp + |b.data|];
    assert ds'[..|done| + 1] == ds'[..|done|] + [ds'[|done|]];
  }

  /** Copies one block in at the two pointers and advances them. */
  method Put(ds: array<Descriptor>, data: array<Byte>, bp0: nat, dp0: nat, b: Block, ghost done: seq<Block>)
    returns (bp: nat, dp: nat)
    requires Holds(ds[..], data[..], done)
    requires bp0 == |done| < ds.Length && dp0 == Total(done) && dp0 + |b.data| <= data.Length
    modifies ds, data
    ensures bp == bp0 + 1 && dp == dp0 + |b.data|
    ensures Holds(ds[..], data[..], done + [b])
  {
    ghost var dsWas, dataWas := ds[..], data[..];
    bp, dp := bp0 + 1, dp0 + |b.data|;
    ds[bp0] := Descriptor(b.kind, b.flags, |b.data|, dp0);
    Copy(data, dp0, b.data);
    HoldsOneMore(dsWas, dataWas, ds[..], data[..], done, b);
  }

  /** `memcpy`. */
  method Copy(data: array<Byte>, at: nat, bytes: seq<Byte>)
    requires at + |bytes| <= data.Length
    modifies data
    ensures data[..][..at] == old(data[..])[..at] && data[..][at..at + |bytes|] == bytes
  {
    forall i | 0 <= i < |bytes| {
      data[at + i] := bytes[i];
    }
  }

  /** There is room for the next kept block. */
  lemma Room(f: Filter, bs: seq<Block>, i: nat, done: seq<Block>, kept: seq<Block>)
    requires i < |bs| && kept == Keep(f, bs[..i]) && Kept(f, bs[i])
    ensures done + Keep(f, bs[..i + 1]) == (done + kept) + [bs[i]]
    ensures |done + kept| < |done| + |Keep(f, bs)|
    ensures Total((done + kept) + [bs[i]]) == Total(done + kept) + |bs[i].data|
    ensures Total(done + kept) + |bs[i].data| <= Total(done) + Total(Keep(f, bs))
  {
    KeepPrefix(f, bs, i);
    KeepMonotone(f, bs, i + 1);
    Associate(done, kept, [bs[i]]);
    TotalAppend(done, kept + [bs[i]]);
    AppendBlock(done + kept, bs[i]);
  }

  /** A skipped block changes nothing. */
  lemma Skip(f: Filter, bs: seq<Block>, i: nat)
    requires i < |bs| && !Kept(f, bs[i])
    ensures Keep(f, bs[..i + 1]) == Keep(f, bs[..i])
  {
    KeepPrefix(f, bs, i);
  }

  /** One turn of the second pass. */
  method FillOne(f: Filter, bs: seq<Block>, i: nat, ds: array<Descriptor>, data: array<Byte>, bp0: nat, dp0: nat,
                 ghost done: seq<Block>, ghost kept: seq<Block>)
    returns (bp: nat, dp: nat)
    requires i < |bs| && kept == Keep(f, bs[..i])
    requires Holds(ds[..], data[..], done + kept) && bp0 == |done + kept| && dp0 == Total(done + kept)
    requires |done| + |Keep(f, bs)| <= ds.Length && Total(done) + Total(Keep(f, bs)) <= data.Length
    modifies ds, data
    ensures var next := done + Keep(f, bs[..i + 1]);
            Holds(ds[..], data[..], next) && bp == |next| && dp == Total(next)
  {
    if Kept(f, bs[i]) {
      Room(f, bs, i, done, kept);
      bp, dp := Put(ds, data, bp0, dp0, bs[i], done + kept);
    } else {
      Skip(f, bs, i);
      bp, dp := bp0, dp0;
    }
  }

  /** Second pass over one list: `done` is what earlier lists have put in already. */
  method Fill(f: Filter, bs: seq<Block>, ds: array<Descriptor>, data: array<Byte>, bp0: nat, dp0: nat,
              ghost done: seq<Block>)
    returns (bp: nat, dp: nat)
    requires Holds(ds[..], data[..], done) && bp0 == |done| && dp0 == Total(done)
    requires |done| + |Keep(f, bs)| <= ds.Length && Total(done) + Total(Keep(f, bs)) <= data.Length
    modifies ds, data
    ensures Holds(ds[..], data[..], done + Keep(f, bs))
    ensures bp == |done + Keep(f, bs)| && dp == Total(done + Keep(f, bs))
  {
    bp, dp := bp0, dp0;
    ghost var kept := Keep(f, bs[..0]);
    assert done + kept == done;
    for i := 0 to |bs|
      invariant kept == Keep(f, bs[..i])
      invariant Holds(ds[..], data[..], done + kept) && bp == |done + kept| && dp == Total(done + kept)
    {
      bp, dp := FillOne(f, bs, i, ds, data, bp, dp, done, kept);
      kept := Keep(f, bs[..i + 1]);
    }
    assert bs[..|bs|] == bs;
  }

  /**
   Both passes over two lists. The fill writes exactly what the count promised, and the result
   reads back as the two lists in order, filtered.
   */
  method PackTwo(f: Filter, first: seq<Block>, second: seq<Block>)
    returns (count: nat, ds: array<Descriptor>, data: array<Byte>)
    ensures fresh(ds) && fresh(data)
    ensures count == ds.Length == |Keep(f, first) + Keep(f, second)|
    ensures Describes(ds[..], data[..], Keep(f, first) + Keep(f, second))
    ensures Tiles(ds[..], data.Length)
  {
    var length;
    count, length := Count(f, first, 0, 0);
    count, length := Count(f, second, count, length);
    ds := new Descriptor[count](_ => Descriptor(0, 0, 0, 0));
    data := new Byte[length](_ => 0);
    ghost var a, b := Keep(f, first), Keep(f, second);
    LayoutDescribes(a + b);
    TotalAppend(a, b);
    if count > 0 {
      assert [] + a == a;
      var bp, dp := Fill(f, first, ds, data, 0, 0, []);
      bp, dp := Fill(f, second, ds, data, bp, dp, a);
      assert ds[..][..|a + b|] == ds[..] && data[..][..Total(a + b)] == data[..];
    }
  }

  /** The extension blocks: those received and those added through the API. */
  method PackExtensionBlocks(recvBlocks: seq<Block>, apiBlocks: seq<Block>)
    returns (count: nat, ds: array<Descriptor>, data: array<Byte>)
    ensures count == ds.Length
    ensures Describes(ds[..], data[..], Keep(Extensions, recvBlocks) + Keep(Extensions, apiBlocks))
    ensures Tiles(ds[..], data.Length)
  {
    count, ds, data := PackTwo(Extensions, recvBlocks, apiBlocks);
  }

  datatype Generated = NoVector | Vector(blocks: seq<Block>)

  /** The metadata: what was received, and what was generated for the null link, if anything. */
  method PackMetadata(recvMetadata: seq<Block>, generated: Generated)
    returns (count: nat, ds: array<Descriptor>, data: array<Byte>)
    ensures count == ds.Length
    ensures Describes(ds[..], data[..], recvMetadata + (if generated.Vector? then generated.blocks else []))
    ensures Tiles(ds[..], data.Length)
  {
    KeepEverything(recvMetadata);
    var more := if generated.Vector? then generated.blocks else [];
    KeepEverything(more);
    count, ds, data := PackTwo(Everything, recvMetadata, more);
  }

  lemma {:induction false} KeepEverything(bs: seq<Block>)
    ensures Keep(Everything, bs) == bs
  {
    if bs != [] { KeepEverything(bs[..|bs| - 1]); }
  }

  /** Filtering keeps a block exactly when its type is none of the three. */
  lemma {:induction false} KeepMeaning(bs: seq<Block>, b: Block)
    ensures b in Keep(Extensions, bs) <==> b in bs && b.kind !in {PRIMARY_BLOCK, PAYLOAD_BLOCK, METADATA_BLOCK}
    ensures Keep(Extensions, [b]) == if b.kind in {PRIMARY_BLOCK, PAYLOAD_BLOCK, METADATA_BLOCK} then [] else [b]
  {
    assert Keep(Extensions, [b][..0]) == [];
    if bs != [] {
      KeepMeaning(bs[..|bs| - 1], b);
      assert bs == bs[..|bs| - 1] + [bs[|bs| - 1]];
    }
  }

  lemma KeepSnoc(f: Filter, bs: seq<Block>, b: Block)
    ensures Keep(f, bs + [b]) == Keep(f, bs) + (if Kept(f, b) then [b] else [])
  {
    assert (bs + [b])[..|bs|] == bs;
  }

  /** And it keeps the order: the two lists may be filtered before or after being joined. */
  lemma {:induction false} KeepOrder(f: Filter, bs: seq<Block>, more: seq<Block>)
    ensures Keep(f, bs + more) == Keep(f, bs) + Keep(f, more)
    decreases |more|
  {
    if more == [] {
      assert bs + more == bs;
    } else {
      var front, b := more[..|more| - 1], more[|more| - 1];
      var last := if Kept(f, b) then [b] else [];
      assert more == front + [b];
      KeepOrder(f, bs, front);
      KeepSnoc(f, front, b);
      Associate(bs, front, [b]);
      KeepSnoc(f, bs + front, b);
      Associate(Keep(f, bs), Keep(f, front), last);
    }
  }
}
