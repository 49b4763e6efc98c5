/**
 The end of `handle_recv`: a bundle that has already left its registration's list is packed and
 encoded for the application. The encoder writes item after item and gives up at the first one that
 is too long for its kind or does not fit what is left of the reply buffer.
 */
module RecvReply {
  import opened Bytes
  import opened IpcDefs
  import opened Xdr
  import D = DtnTypes
  import P = BlockPacking

  /** What the encoder holds, or that it has failed. */
  datatype Encoder = Failed | Holding(out: seq<Byte>)

  /** A bundle's spec before its lengths are looked at; `head` has the fields of fixed length. */
  datatype RawSpec = RawSpec(
    head: D.Spec, sequenceId: seq<Byte>, obsoletesId: seq<Byte>, blocks: seq<P.Block>, metadata: seq<P.Block>)

  /** Types and flags are 32-bit words in the source. */
  predicate Words(bs: seq<P.Block>) {
    forall i :: 0 <= i < |bs| ==> bs[i].kind < WORD && bs[i].flags < WORD
  }

  predicate InBuffer(e: Encoder) {
    e.Holding? ==> |e.out| <= MAX_BODY
  }

  // ---------------------------------------------------------------- the encoder, item by item

  function Item(e: Encoder, item: seq<Byte>): (r: Encoder)
    ensures InBuffer(r) || r == e
  {
    if e.Holding? && |e.out| + |item| <= MAX_BODY then Holding(e.out + item) else Failed
  }

  function BoundedBytes(e: Encoder, data: seq<Byte>, max: nat): Encoder
    requires max < WORD
  {
    if |data| > max then Failed else Item(Item(e, PutU32(|data|)), PutOpaque(data))
  }

  function Element(e: Encoder, b: P.Block): Encoder
    requires b.kind < WORD && b.flags < WORD
  {
    BoundedBytes(Item(Item(e, PutU32(b.kind)), PutU32(b.flags)), b.data, D.MAX_BLOCK_LEN)
  }

  function Elements(e: Encoder, bs: seq<P.Block>): Encoder
    requires Words(bs)
    decreases |bs|
  {
    if bs == [] then e else Elements(Element(e, bs[0]), bs[1..])
  }

  function BoundedArray(e: Encoder, bs: seq<P.Block>): Encoder
    requires Words(bs)
  {
    if |bs| > D.MAX_BLOCKS then Failed else Elements(Item(e, PutU32(|bs|)), bs)
  }

  function EncodeSpec(e: Encoder, v: RawSpec): Encoder
    requires Words(v.blocks) && Words(v.metadata)
  {
    var e1 := Item(Item(e, D.PutAddresses(v.head)), D.PutOptions(v.head));
    var e2 := BoundedBytes(BoundedBytes(e1, v.sequenceId, D.MAX_BLOCK_LEN), v.obsoletesId, D.MAX_BLOCK_LEN);
    BoundedArray(BoundedArray(e2, v.blocks), v.metadata)
  }

  // ---------------------------------------------------------------- what it amounts to

  predicate ShortBlocks(bs: seq<P.Block>) {
    forall i :: 0 <= i < |bs| ==> |bs[i].data| <= D.MAX_BLOCK_LEN
  }

  /** Every length is within its bound. */
  predicate Encodable(v: RawSpec) {
    && |v.sequenceId| <= D.MAX_BLOCK_LEN && |v.obsoletesId| <= D.MAX_BLOCK_LEN
    && |v.blocks| <= D.MAX_BLOCKS && ShortBlocks(v.blocks)
    && |v.metadata| <= D.MAX_BLOCKS && ShortBlocks(v.metadata)
  }

  function ToBlocks(bs: seq<P.Block>): (r: seq<D.Block>)
    requires Words(bs) && ShortBlocks(bs)
    ensures |r| == |bs|
  {
    seq(|bs|, i requires 0 <= i < |bs| => D.Block(bs[i].kind, bs[i].flags, bs[i].data))
  }

  function ToSpec(v: RawSpec): D.Spec
    requires Words(v.blocks) && Words(v.metadata) && Encodable(v)
  {
    v.head.(sequenceId := v.sequenceId, obsoletesId := v.obsoletesId,
            blocks := ToBlocks(v.blocks), metadata := ToBlocks(v.metadata))
  }

  /** Two items after each other are one. */
  lemma ItemTwice(e: Encoder, a: seq<Byte>, b: seq<Byte>)
    ensures Item(Item(e, a), b) == Item(e, a + b)
  {
    if e.Holding? {
      assert (e.out + a) + b == e.out + (a + b);
    }
  }

  lemma BytesAreItem(e: Encoder, data: seq<Byte>, max: nat)
    requires max < WORD
    ensures BoundedBytes(e, data, max) == if |data| <= max then Item(e, PutBytes(data, max)) else Failed
  {
    if |data| <= max {
      ItemTwice(e, PutU32(|data|), PutOpaque(data));
    }
  }

  lemma ElementIsItem(e: Encoder, b: P.Block)
    requires b.kind < WORD && b.flags < WORD
    ensures Element(e, b) == if |b.data| <= D.MAX_BLOCK_LEN then Item(e, D.PutBlock(D.Block(b.kind, b.flags, b.data))) else Failed
  {
    var head := Item(Item(e, PutU32(b.kind)), PutU32(b.flags));
    BytesAreItem(head, b.data, D.MAX_BLOCK_LEN);
    if |b.data| <= D.MAX_BLOCK_LEN {
      var body := PutBytes(b.data, D.MAX_BLOCK_LEN);
      ItemTwice(Item(e, PutU32(b.kind)), PutU32(b.flags), body);
      ItemTwice(e, PutU32(b.kind), PutU32(b.flags) + body);
    }
  }

  lemma ToBlocksRest(bs: seq<P.Block>)
    requires Words(bs) && ShortBlocks(bs) && bs != []
    ensures ToBlocks(bs)[0] == D.Block(bs[0].kind, bs[0].flags, bs[0].data)
    ensures ToBlocks(bs)[1..] == ToBlocks(bs[1..])
  {
  }

  lemma {:induction false} FailedStays(bs: seq<P.Block>)
    requires Words(bs)
    ensures Elements(Failed, bs) == Failed
    decreases |bs|
  {
    if bs != [] {
      FailedStays(bs[1..]);
    }
  }

  lemma {:induction false} ElementsAreItem(e: Encoder, bs: seq<P.Block>)
    requires Words(bs) && InBuffer(e)
    ensures Elements(e, bs) == if ShortBlocks(bs) then Item(e, D.PutElements(ToBlocks(bs))) else Failed
    decreases |bs|
  {
    if bs == [] {
      assert e.Holding? ==> e.out + [] == e.out;
    } else {
      ElementIsItem(e, bs[0]);
      ElementsAreItem(Element(e, bs[0]), bs[1..]);
      assert ShortBlocks(bs) <==> |bs[0].data| <= D.MAX_BLOCK_LEN && ShortBlocks(bs[1..]);
      if ShortBlocks(bs) {
        ToBlocksRest(bs);
        ItemTwice(e, D.PutBlock(ToBlocks(bs)[0]), D.PutElements(ToBlocks(bs[1..])));
      } else if |bs[0].data| > D.MAX_BLOCK_LEN {
        FailedStays(bs[1..]);
      }
    }
  }

  lemma ArrayIsItem(e: Encoder, bs: seq<P.Block>)
    requires Words(bs)
    ensures BoundedArray(e, bs)
            == if |bs| <= D.MAX_BLOCKS && ShortBlocks(bs) then Item(e, D.PutBlocks(ToBlocks(bs))) else Failed
  {
    if |bs| <= D.MAX_BLOCKS {
      var counted := Item(e, PutU32(|bs|));
      ElementsAreItem(counted, bs);
      if ShortBlocks(bs) {
        ItemTwice(e, PutU32(|bs|), D.PutElements(ToBlocks(bs)));
      }
    }
  }

  lemma ArrayOfFailed(bs: seq<P.Block>)
    requires Words(bs)
    ensures BoundedArray(Failed, bs) == Failed
  {
    FailedStays(bs);
  }

  /** The parts of a spec after its fixed head. */
  lemma VariableIsItem(e: Encoder, v: RawSpec)
    requires Words(v.blocks) && Words(v.metadata) && Encodable(v)
    ensures var e2 := BoundedBytes(BoundedBytes(e, v.sequenceId, D.MAX_BLOCK_LEN), v.obsoletesId, D.MAX_BLOCK_LEN);
            BoundedArray(BoundedArray(e2, v.blocks), v.metadata) == Item(e, D.PutVariable(ToSpec(v)))
  {
    var a, b := PutBytes(v.sequenceId, D.MAX_BLOCK_LEN), PutBytes(v.obsoletesId, D.MAX_BLOCK_LEN);
    var c, d := D.PutBlocks(ToBlocks(v.blocks)), D.PutBlocks(ToBlocks(v.metadata));
    BytesAreItem(e, v.sequenceId, D.MAX_BLOCK_LEN);
    BytesAreItem(Item(e, a), v.obsoletesId, D.MAX_BLOCK_LEN);
    ArrayIsItem(Item(Item(e, a), b), v.blocks);
    ArrayIsItem(Item(Item(Item(e, a), b), c), v.metadata);
    ItemTwice(Item(Item(e, a), b), c, d);
    ItemTwice(Item(e, a), b, c + d);
    ItemTwice(e, a, b + (c + d));
  }

  lemma VariableFails(e: Encoder, v: RawSpec)
    requires Words(v.blocks) && Words(v.metadata) && !Encodable(v)
    ensures var e2 := BoundedBytes(BoundedBytes(e, v.sequenceId, D.MAX_BLOCK_LEN), v.obsoletesId, D.MAX_BLOCK_LEN);
            BoundedArray(BoundedArray(e2, v.blocks), v.metadata) == Failed
  {
    var e2 := BoundedBytes(BoundedBytes(e, v.sequenceId, D.MAX_BLOCK_LEN), v.obsoletesId, D.MAX_BLOCK_LEN);
    ArrayIsItem(e2, v.blocks);
    ArrayIsItem(BoundedArray(e2, v.blocks), v.metadata);
    ArrayOfFailed(v.blocks);
    ArrayOfFailed(v.metadata);
  }

  /** Encoding a spec item by item is writing the whole of it, if every length is in bounds and it fits. */
  lemma SpecIsItem(e: Encoder, v: RawSpec)
    requires Words(v.blocks) && Words(v.metadata)
    ensures EncodeSpec(e, v) == if Encodable(v) then Item(e, D.PutSpec(ToSpec(v))) else Failed
  {
    var a, o := D.PutAddresses(v.head), D.PutOptions(v.head);
    var e1 := Item(Item(e, a), o);
    if Encodable(v) {
      var x := D.PutVariable(ToSpec(v));
      VariableIsItem(e1, v);
      ItemTwice(Item(e, a), o, x);
      ItemTwice(e, a, o + x);
    } else {
      VariableFails(e1, v);
    }
  }

  // ---------------------------------------------------------------- handle_recv

  /** What the daemon holds of a bundle that matters to the reply. The payload is in bounds by then. */
  datatype Bundle = Bundle(
    head: D.Spec, sequenceId: seq<Byte>, obsoletesId: seq<Byte>,
    recvBlocks: seq<P.Block>, apiBlocks: seq<P.Block>, recvMetadata: seq<P.Block>, generated: seq<P.Block>,
    payload: D.Payload)

  predicate BundleWords(b: Bundle) {
    Words(b.recvBlocks) && Words(b.apiBlocks) && Words(b.recvMetadata) && Words(b.generated)
  }

  lemma {:induction false} KeptWords(bs: seq<P.Block>)
    requires Words(bs)
    ensures Words(P.Keep(P.Extensions, bs))
  {
    if bs != [] {
      KeptWords(bs[..|bs| - 1]);
    }
  }

  /** The blocks as the two packing passes leave them. */
  function Packed(b: Bundle): (v: RawSpec)
    requires BundleWords(b)
    ensures Words(v.blocks) && Words(v.metadata)
  {
    KeptWords(b.recvBlocks);
    KeptWords(b.apiBlocks);
    RawSpec(b.head, b.sequenceId, b.obsoletesId,
            P.Keep(P.Extensions, b.recvBlocks) + P.Keep(P.Extensions, b.apiBlocks), b.recvMetadata + b.generated)
  }

  datatype Reception = Delivered(body: seq<Byte>) | Undelivered

  function ReplyTo(b: Bundle): Encoder
    requires BundleWords(b)
  {
    Item(EncodeSpec(Holding([]), Packed(b)), D.PutPayload(b.payload))
  }

  /** The front bundle leaves the list first; only then is the reply encoded. */
  function HandleRecv(waiting: seq<Bundle>): (r: (seq<Bundle>, Reception))
    requires waiting != [] && BundleWords(waiting[0])
  {
    var e := ReplyTo(waiting[0]);
    (waiting[1..], if e.Holding? then Delivered(e.out) else Undelivered)
  }

  /** The packed bundle is within the bounds of every field and the reply within the buffer. */
  predicate Deliverable(b: Bundle)
    requires BundleWords(b)
  {
    Encodable(Packed(b)) && D.SpecSize(ToSpec(Packed(b))) + D.PayloadSize(b.payload) <= MAX_BODY
  }

  lemma ReplyIsItem(b: Bundle)
    requires BundleWords(b)
    ensures ReplyTo(b) == if Encodable(Packed(b)) then Item(Holding([]), D.PutSpec(ToSpec(Packed(b))) + D.PutPayload(b.payload))
                          else Failed
  {
    SpecIsItem(Holding([]), Packed(b));
    if Encodable(Packed(b)) {
      ItemTwice(Holding([]), D.PutSpec(ToSpec(Packed(b))), D.PutPayload(b.payload));
    }
  }

  lemma FirstItem(x: seq<Byte>)
    ensures Item(Holding([]), x) == if |x| <= MAX_BODY then Holding(x) else Failed
  {
    assert [] + x == x;
  }

  /**
   The bundle is gone from the list in either case. The application gets it, as the encoding of its
   packed spec and payload, if and only if it is deliverable; otherwise the reply is EXDR.
   */
  lemma DeliveredIff(waiting: seq<Bundle>)
    requires waiting != [] && BundleWords(waiting[0])
    ensures var (left, r) := HandleRecv(waiting);
            && left == waiting[1..]
            && (r.Delivered? <==> Deliverable(waiting[0]))
            && (r.Delivered? ==> r.body == D.PutSpec(ToSpec(Packed(waiting[0]))) + D.PutPayload(waiting[0].payload))
  {
    var b := waiting[0];
    ReplyIsItem(b);
    if Encodable(Packed(b)) {
      FirstItem(D.PutSpec(ToSpec(Packed(b))) + D.PutPayload(b.payload));
    }
  }

  /** `xs` are the blocks `first` and then the blocks `second`. */
  predicate Blocks(xs: seq<D.Block>, first: seq<P.Block>, second: seq<P.Block>) {
    && |xs| == |first| + |second|
    && (forall i :: 0 <= i < |first| ==> SameBlock(xs[i], first[i]))
    && (forall i :: 0 <= i < |second| ==> SameBlock(xs[|first| + i], second[i]))
  }

  predicate SameBlock(x: D.Block, b: P.Block) {
    x.kind == b.kind && x.flags == b.flags && x.data == b.data
  }

  lemma ToBlocksSame(bs: seq<P.Block>, first: seq<P.Block>, second: seq<P.Block>)
    requires Words(bs) && ShortBlocks(bs) && bs == first + second
    ensures Blocks(ToBlocks(bs), first, second)
  {
  }

  /**
   The spec in such a reply has the bundle's head and ids; as extension blocks the kept ones received
   and then the kept ones the sender's application added; and as metadata what was received and then
   what the daemon generated.
   */
  lemma WhatIsPacked(b: Bundle)
    requires BundleWords(b) && Deliverable(b)
    ensures var v := ToSpec(Packed(b));
            && v == b.head.(sequenceId := v.sequenceId, obsoletesId := v.obsoletesId, blocks := v.blocks, metadata := v.metadata)
            && v.sequenceId == b.sequenceId && v.obsoletesId == b.obsoletesId
            && Blocks(v.blocks, P.Keep(P.Extensions, b.recvBlocks), P.Keep(P.Extensions, b.apiBlocks))
            && Blocks(v.metadata, b.recvMetadata, b.generated)
  {
    var v := Packed(b);
    ToBlocksSame(v.blocks, P.Keep(P.Extensions, b.recvBlocks), P.Keep(P.Extensions, b.apiBlocks));
    ToBlocksSame(v.metadata, b.recvMetadata, b.generated);
  }

  /** What the application decodes from the reply is that spec and that payload. */
  lemma DeliveredDecodes(b: Bundle)
    requires BundleWords(b) && Deliverable(b)
    ensures var body := D.PutSpec(ToSpec(Packed(b))) + D.PutPayload(b.payload);
            && D.GetSpec(body) == Ok(ToSpec(Packed(b)), D.PutPayload(b.payload))
            && D.GetPayload(D.PutPayload(b.payload)) == Ok(b.payload, [])
  {
    D.SpecRoundTrip(ToSpec(Packed(b)), D.PutPayload(b.payload));
    D.PayloadRoundTrip(b.payload, []);
    assert D.PutPayload(b.payload) + [] == D.PutPayload(b.payload);
  }

  /** A bundle with more than 256 kept blocks is not delivered, however short they are. */
  lemma TooManyBlocks(b: Bundle)
    requires BundleWords(b) && |P.Keep(P.Extensions, b.recvBlocks)| + |P.Keep(P.Extensions, b.apiBlocks)| > D.MAX_BLOCKS
    ensures HandleRecv([b]).1 == Undelivered
  {
    DeliveredIff([b]);
  }
}
