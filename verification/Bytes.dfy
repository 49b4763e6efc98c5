/** Bytes, big-endian words, and the frames that cross the application IPC channel. */
module Bytes {
  type Byte = b: int | 0 <= b < 256

  const WORD: nat := 0x1_0000_0000

  /** A 32-bit word in network byte order. */
  function Word(n: nat): (r: seq<Byte>)
    requires n < WORD
    ensures |r| == 4
  {
    [n / 0x100_0000, n / 0x1_0000 % 0x100, n / 0x100 % 0x100, n % 0x100]
  }

  function WordValue(b: seq<Byte>): (n: nat)
    requires |b| == 4
    ensures n < WORD
  {
    var hi: int, mh: int, ml: int, lo: int := b[0], b[1], b[2], b[3];
    ((hi * 0x100 + mh) * 0x100 + ml) * 0x100 + lo
  }

  lemma WordRoundTrip(n: nat)
    requires n < WORD
    ensures WordValue(Word(n)) == n
  {
    assert n == n / 0x100 * 0x100 + n % 0x100;
    assert n / 0x100 == n / 0x1_0000 * 0x100 + n / 0x100 % 0x100;
    assert n / 0x1_0000 == n / 0x100_0000 * 0x100 + n / 0x1_0000 % 0x100;
  }

  lemma WordOfValue(b: seq<Byte>)
    requires |b| == 4
    ensures Word(WordValue(b)) == b
  {
    var n := WordValue(b);
    var hi: int, mh: int, ml: int := b[0], b[1], b[2];
    var k := hi * 0x100 + mh;
    var m := k * 0x100 + ml;
    assert n / 0x100 == m && n % 0x100 == b[3];
    assert m / 0x100 == k && m % 0x100 == b[2];
    assert n / 0x1_0000 == k && n / 0x100_0000 == b[0];
  }

  /** Network order: the first byte in which two words differ is the one that decides. */
  lemma NetworkOrder(a: seq<Byte>, b: seq<Byte>, k: nat)
    requires |a| == |b| == 4 && k < 4 && a[..k] == b[..k] && a[k] < b[k]
    ensures WordValue(a) < WordValue(b)
  {
    assert forall i :: 0 <= i < k ==> a[..k][i] == a[i] && b[..k][i] == b[i];
  }

  /** A request: a type code and an XDR body. On the wire: one byte, a length word, the body. */
  datatype Request = Request(kind: Byte, body: seq<Byte>)

  /** A reply: a status and an XDR body. On the wire: a status word, a length word, the body. */
  datatype Reply = Reply(status: nat, body: seq<Byte>)

  predicate FramableRequest(q: Request) {
    |q.body| < WORD
  }

  predicate FramableReply(p: Reply) {
    p.status < WORD && |p.body| < WORD
  }

  function RequestFrame(q: Request): (r: seq<Byte>)
    requires FramableRequest(q)
    ensures |r| == 5 + |q.body|
  {
    [q.kind] + Word(|q.body|) + q.body
  }

  function ReplyFrame(p: Reply): (r: seq<Byte>)
    requires FramableReply(p)
    ensures |r| == 8 + |p.body|
  {
    Word(p.status) + Word(|p.body|) + p.body
  }

  /** The bytes of several requests sent back to back. */
  function RequestBytes(qs: seq<Request>): (r: seq<Byte>)
    requires forall q :: q in qs ==> FramableRequest(q)
  {
    if qs == [] then [] else RequestFrame(qs[0]) + RequestBytes(qs[1..])
  }

  function ReplyBytes(ps: seq<Reply>): (r: seq<Byte>)
    requires forall p :: p in ps ==> FramableReply(p)
  {
    if ps == [] then [] else ReplyFrame(ps[0]) + ReplyBytes(ps[1..])
  }

  lemma {:induction false} RequestBytesAppend(qs: seq<Request>, q: Request)
    requires forall x :: x in qs ==> FramableRequest(x)
    requires FramableRequest(q)
    ensures RequestBytes(qs + [q]) == RequestBytes(qs) + RequestFrame(q)
  {
    if qs == [] {
      assert (qs + [q])[1..] == [];
    } else {
      RequestBytesAppend(qs[1..], q);
      assert (qs + [q])[1..] == qs[1..] + [q];
      assert (qs + [q])[0] == qs[0];
      calc {
        RequestBytes(qs + [q]);
        RequestFrame(qs[0]) + (RequestBytes(qs[1..]) + RequestFrame(q));
        RequestBytes(qs) + RequestFrame(q);
      }
    }
  }

  lemma {:induction false} ReplyBytesAppend(ps: seq<Reply>, p: Reply)
    requires forall x :: x in ps ==> FramableReply(x)
    requires FramableReply(p)
    ensures ReplyBytes(ps + [p]) == ReplyBytes(ps) + ReplyFrame(p)
  {
    if ps == [] {
      assert (ps + [p])[1..] == [];
    } else {
      ReplyBytesAppend(ps[1..], p);
      assert (ps + [p])[1..] == ps[1..] + [p];
      assert (ps + [p])[0] == ps[0];
      calc {
        ReplyBytes(ps + [p]);
        ReplyFrame(ps[0]) + (ReplyBytes(ps[1..]) + ReplyFrame(p));
        ReplyBytes(ps) + ReplyFrame(p);
      }
    }
  }

  /** What the first five bytes of a stream say about the request that starts there. */
  function RequestKind(s: seq<Byte>): (k: Byte)
    requires |s| >= 5
  {
    s[0]
  }

  function RequestLength(s: seq<Byte>): (n: nat)
    requires |s| >= 5
  {
    WordValue(s[1..5])
  }

  /** What the first eight bytes of a stream say about the reply that starts there. */
  function ReplyStatus(s: seq<Byte>): (n: nat)
    requires |s| >= 8
  {
    WordValue(s[..4])
  }

  function ReplyLength(s: seq<Byte>): (n: nat)
    requires |s| >= 8
  {
    WordValue(s[4..8])
  }

  /** A request frame is recognised whatever follows it on the stream. */
  lemma RequestFrameParses(q: Request, rest: seq<Byte>)
    requires FramableRequest(q)
    ensures var s := RequestFrame(q) + rest;
            && RequestKind(s) == q.kind
            && RequestLength(s) == |q.body|
            && s[5..5 + |q.body|] == q.body
            && s[5 + |q.body|..] == rest
  {
    var s := RequestFrame(q) + rest;
    assert s[1..5] == Word(|q.body|);
    WordRoundTrip(|q.body|);
  }

  lemma ReplyFrameParses(p: Reply, rest: seq<Byte>)
    requires FramableReply(p)
    ensures var s := ReplyFrame(p) + rest;
            && ReplyStatus(s) == p.status
            && ReplyLength(s) == |p.body|
            && s[8..] == p.body + rest
            && s[8..8 + |p.body|] == p.body
            && s[8 + |p.body|..] == rest
  {
    var s := ReplyFrame(p) + rest;
    assert s[..4] == Word(p.status);
    assert s[4..8] == Word(|p.body|);
    WordRoundTrip(p.status);
    WordRoundTrip(|p.body|);
  }

  lemma BytesOfSome(qs: seq<Request>, ps: seq<Reply>)
    requires (forall q :: q in qs ==> FramableRequest(q)) && (forall p :: p in ps ==> FramableReply(p))
    ensures qs != [] ==> |RequestBytes(qs)| >= 5
    ensures ps != [] ==> |ReplyBytes(ps)| >= 8
  {
  }

  lemma {:induction false} FirstRequest(a: Request, x: seq<Byte>, b: Request, y: seq<Byte>)
    requires FramableRequest(a) && FramableRequest(b) && RequestFrame(a) + x == RequestFrame(b) + y
    ensures a == b && x == y
  {
    RequestFrameParses(a, x);
    RequestFrameParses(b, y);
  }

  lemma {:induction false} FirstReply(a: Reply, x: seq<Byte>, b: Reply, y: seq<Byte>)
    requires FramableReply(a) && FramableReply(b) && ReplyFrame(a) + x == ReplyFrame(b) + y
    ensures a == b && x == y
  {
    ReplyFrameParses(a, x);
    ReplyFrameParses(b, y);
  }

  /** Framing is unambiguous: requests decoded off the front of a stream are the first that were sent on it. */
  lemma {:induction false} RequestsPrefix(sent: seq<Request>, got: seq<Request>, rest: seq<Byte>)
    requires (forall q :: q in sent ==> FramableRequest(q)) && (forall q :: q in got ==> FramableRequest(q))
    requires RequestBytes(sent) == RequestBytes(got) + rest
    ensures got <= sent && rest == RequestBytes(sent[|got|..])
  {
    if got != [] {
      BytesOfSome(got, []);
      var x, y := RequestBytes(sent[1..]), RequestBytes(got[1..]) + rest;
      assert RequestBytes(got) + rest == RequestFrame(got[0]) + y;
      FirstRequest(sent[0], x, got[0], y);
      RequestsPrefix(sent[1..], got[1..], rest);
      assert sent == [sent[0]] + sent[1..] && got == [got[0]] + got[1..];
      assert sent[1..][|got[1..]|..] == sent[|got|..];
    }
  }

  /** And so are replies. */
  lemma {:induction false} RepliesPrefix(sent: seq<Reply>, got: seq<Reply>, rest: seq<Byte>)
    requires (forall p :: p in sent ==> FramableReply(p)) && (forall p :: p in got ==> FramableReply(p))
    requires ReplyBytes(sent) == ReplyBytes(got) + rest
    ensures got <= sent && rest == ReplyBytes(sent[|got|..])
  {
    if got != [] {
      BytesOfSome([], got);
      var x, y := ReplyBytes(sent[1..]), ReplyBytes(got[1..]) + rest;
      assert ReplyBytes(got) + rest == ReplyFrame(got[0]) + y;
      FirstReply(sent[0], x, got[0], y);
      RepliesPrefix(sent[1..], got[1..], rest);
      assert sent == [sent[0]] + sent[1..] && got == [got[0]] + got[1..];
      assert sent[1..][|got[1..]|..] == sent[|got|..];
    }
  }
}
