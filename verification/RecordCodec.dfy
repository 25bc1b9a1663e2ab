/** The bytes of one stored record, and their exact inverse. */
module RecordCodec {
  import opened Basics

  const U16: nat := 0x1_0000
  const U32: nat := 0x1_0000_0000
  const U64: nat := 0x1_0000_0000_0000_0000

  type Word32 = x: nat | x < U32
  type Word64 = x: nat | x < U64

  type Uuid = s: seq<Byte> | |s| == 16 witness seq(16, _ => 0)

  datatype View = TcpRaw | HttpRequestHeaders | HttpRequestBody | HttpRequestDecodedBody
                | HttpResponseHeaders | HttpResponseBody | HttpResponseDecodedBody

  datatype Record = Record(id: Uuid, flowId: Uuid, tsNs: Word64, service: Option<seq<Byte>>,
                           direction: Direction, view: View, streamOffset: Word64, data: seq<Byte>)

  // ---------- Little-endian words ----------

  function Power256(n: nat): (p: nat)
    ensures p >= 1
  {
    if n == 0 then 1 else 256 * Power256(n - 1)
  }

  function Le(x: nat, width: nat): (s: seq<Byte>)
    ensures |s| == width
  {
    if width == 0 then [] else [x % 256] + Le(x / 256, width - 1)
  }

  function FromLe(s: seq<Byte>): nat {
    if s == [] then 0 else s[0] + 256 * FromLe(s[1..])
  }

  lemma {:induction false} FromLeInvertsLe(x: nat, width: nat)
    requires x < Power256(width)
    ensures FromLe(Le(x, width)) == x
  {
    if width > 0 {
      FromLeInvertsLe(x / 256, width - 1);
      assert Le(x, width)[1..] == Le(x / 256, width - 1);
    }
  }

  lemma {:induction false} LeInvertsFromLe(s: seq<Byte>)
    ensures FromLe(s) < Power256(|s|)
    ensures Le(FromLe(s), |s|) == s
  {
    if s != [] {
      LeInvertsFromLe(s[1..]);
      assert s == [s[0]] + s[1..];
    }
  }

  lemma Powers()
    ensures Power256(2) == U16 && Power256(4) == U32 && Power256(8) == U64
  {
    assert Power256(1) == 256 * Power256(0);
    assert Power256(2) == 256 * Power256(1);
    assert Power256(3) == 256 * Power256(2);
    assert Power256(4) == 256 * Power256(3);
    assert Power256(5) == 256 * Power256(4);
    assert Power256(6) == 256 * Power256(5);
    assert Power256(7) == 256 * Power256(6);
    assert Power256(8) == 256 * Power256(7);
  }

  // ---------- Enumerations ----------

  function DirectionByte(d: Direction): Byte {
    match d case AToB => 0 case BToA => 1
  }

  function ByteDirection(b: Byte): (d: Option<Direction>)
    ensures d.Some? <==> b < 2
    ensures d.Some? ==> DirectionByte(d.value) == b
  {
    if b == 0 then Some(AToB) else if b == 1 then Some(BToA) else None
  }

  function ViewByte(v: View): Byte {
    match v
    case TcpRaw => 0
    case HttpRequestHeaders => 1
    case HttpRequestBody => 2
    case HttpRequestDecodedBody => 3
    case HttpResponseHeaders => 4
    case HttpResponseBody => 5
    case HttpResponseDecodedBody => 6
  }

  function ByteView(b: Byte): (v: Option<View>)
    ensures v.Some? <==> b < 7
    ensures v.Some? ==> ViewByte(v.value) == b
  {
    match b
    case 0 => Some(TcpRaw)
    case 1 => Some(HttpRequestHeaders)
    case 2 => Some(HttpRequestBody)
    case 3 => Some(HttpRequestDecodedBody)
    case 4 => Some(HttpResponseHeaders)
    case 5 => Some(HttpResponseBody)
    case 6 => Some(HttpResponseDecodedBody)
    case _ => None
  }

  // ---------- Records ----------

  function ServiceBytes(r: Record): seq<Byte> {
    if r.service.Some? then r.service.value else []
  }

  function Encode(r: Record): Option<seq<Byte>> {
    var service := ServiceBytes(r);
    if |service| >= U16 || |r.data| >= U32 then None
    else Some(r.id + (r.flowId + (Le(r.tsNs, 8) + (Le(|service|, 2) + (service + ([DirectionByte(r.direction)]
              + ([ViewByte(r.view)] + (Le(r.streamOffset, 8) + (Le(|r.data|, 4) + r.data)))))))))
  }

  datatype Taken = Taken(head: seq<Byte>, rest: seq<Byte>)

  function Take(s: seq<Byte>, n: nat): (t: Option<Taken>)
    ensures t.Some? <==> |s| >= n
    ensures t.Some? ==> |t.value.head| == n && t.value.head + t.value.rest == s
  {
    if |s| < n then None else Some(Taken(s[..n], s[n..]))
  }

  lemma TakeConcat(a: seq<Byte>, b: seq<Byte>)
    ensures Take(a + b, |a|) == Some(Taken(a, b))
  {
  }

  /** Direction, view, offset and payload: what follows the service name. */
  function DecodeTail(id: Uuid, flowId: Uuid, tsNs: Word64, service: Option<seq<Byte>>, s: seq<Byte>): Option<Record> {
    var d := Take(s, 1);
    if d.None? then None else
    var direction := ByteDirection(d.value.head[0]);
    if direction.None? then None else
    var v := Take(d.value.rest, 1);
    if v.None? then None else
    var view := ByteView(v.value.head[0]);
    if view.None? then None else
    var o := Take(v.value.rest, 8);
    if o.None? then None else
    var n := Take(o.value.rest, 4);
    if n.None? then None else
    var p := Take(n.value.rest, FromLe(n.value.head));
    if p.None? || p.value.rest != [] then None else
    Word64Bound(o.value.head);
    Some(Record(id, flowId, tsNs, service, direction.value, view.value, FromLe(o.value.head), p.value.head))
  }

  lemma Word64Bound(s: seq<Byte>)
    requires |s| == 8
    ensures FromLe(s) < U64
  {
    Powers();
    LeInvertsFromLe(s);
  }

  function Decode(s: seq<Byte>): Option<Record> {
    if |s| < 56 then None else
    var i := Take(s, 16);
    var f := Take(i.value.rest, 16);
    var t := Take(f.value.rest, 8);
    var l := Take(t.value.rest, 2);
    if l.None? then None else
    var service := Take(l.value.rest, FromLe(l.value.head));
    if service.None? then None else
    Word64Bound(t.value.head);
    DecodeTail(i.value.head, f.value.head, FromLe(t.value.head),
               if service.value.head == [] then None else Some(service.value.head), service.value.rest)
  }

  /** What a record is read back as: an empty service name comes back as none. */
  function Normal(r: Record): Record {
    if r.service == Some([]) then r.(service := None) else r
  }

  function TailBytes(r: Record): seq<Byte>
    requires |r.data| < U32
  {
    [DirectionByte(r.direction)] + ([ViewByte(r.view)] + (Le(r.streamOffset, 8) + (Le(|r.data|, 4) + r.data)))
  }

  lemma DecodeTailEncoded(r: Record)
    requires |r.data| < U32
    ensures DecodeTail(r.id, r.flowId, r.tsNs, r.service, TailBytes(r)) == Some(r)
  {
    Powers();
    FromLeInvertsLe(r.streamOffset, 8);
    FromLeInvertsLe(|r.data|, 4);
    hide Le, FromLe, Take, Power256, ViewByte, ByteView, DirectionByte, ByteDirection;
    ViewRound(r.view);
    DirectionRound(r.direction);
    var afterView := Le(r.streamOffset, 8) + (Le(|r.data|, 4) + r.data);
    TakeConcat([DirectionByte(r.direction)], [ViewByte(r.view)] + afterView);
    TakeConcat([ViewByte(r.view)], afterView);
    TakeConcat(Le(r.streamOffset, 8), Le(|r.data|, 4) + r.data);
    TakeConcat(Le(|r.data|, 4), r.data);
    TakeConcat(r.data, []);
    assert r.data + [] == r.data;
  }

  lemma ViewRound(v: View)
    ensures ByteView(ViewByte(v)) == Some(v)
  {
  }

  lemma DirectionRound(d: Direction)
    ensures ByteDirection(DirectionByte(d)) == Some(d)
  {
  }

  /** Reading back what was written gives the record, up to an empty service name. */
  lemma DecodeInvertsEncode(r: Record)
    requires Encode(r).Some?
    ensures Decode(Encode(r).value) == Some(Normal(r))
  {
    var service := ServiceBytes(r);
    Powers();
    FromLeInvertsLe(r.tsNs, 8);
    FromLeInvertsLe(|service|, 2);
    DecodeTailEncoded(Normal(r));
    EncodeIs(r);
    hide Le, FromLe, Take, Power256, DecodeTail, TailBytes, Encode;
    var e := TailBytes(r);
    TailLength(r);
    TakeConcat(r.id, r.flowId + (Le(r.tsNs, 8) + (Le(|service|, 2) + (service + e))));
    TakeConcat(r.flowId, Le(r.tsNs, 8) + (Le(|service|, 2) + (service + e)));
    TakeConcat(Le(r.tsNs, 8), Le(|service|, 2) + (service + e));
    TakeConcat(Le(|service|, 2), service + e);
    TakeConcat(service, e);
    TailNormal(r);
  }

  lemma EncodeIs(r: Record)
    requires Encode(r).Some?
    ensures |ServiceBytes(r)| < U16 && |r.data| < U32
    ensures Encode(r).value
      == r.id + (r.flowId + (Le(r.tsNs, 8) + (Le(|ServiceBytes(r)|, 2) + (ServiceBytes(r) + TailBytes(r)))))
  {
  }

  lemma TailLength(r: Record)
    requires |r.data| < U32
    ensures |TailBytes(r)| == 14 + |r.data|
  {
  }

  lemma TailNormal(r: Record)
    requires |r.data| < U32
    ensures TailBytes(Normal(r)) == TailBytes(r)
  {
  }

  lemma DecodeTailFacts(id: Uuid, flowId: Uuid, tsNs: Word64, service: Option<seq<Byte>>, s: seq<Byte>)
    requires DecodeTail(id, flowId, tsNs, service, s).Some?
    ensures var r := DecodeTail(id, flowId, tsNs, service, s).value;
      && r.id == id && r.flowId == flowId && r.tsNs == tsNs && r.service == service
      && |r.data| < U32 && TailBytes(r) == s
  {
    var d := Take(s, 1).value;
    var v := Take(d.rest, 1).value;
    var o := Take(v.rest, 8).value;
    var n := Take(o.rest, 4).value;
    var p := Take(n.rest, FromLe(n.head)).value;
    Powers();
    LeInvertsFromLe(o.head);
    LeInvertsFromLe(n.head);
    hide Take, Le, FromLe, Power256;
    assert d.head == [d.head[0]] && v.head == [v.head[0]];
    assert p.head + [] == p.head;
  }

  /** Every accepted encoding is the one that would be written for what it decodes to. */
  lemma EncodeInvertsDecode(s: seq<Byte>)
    requires Decode(s).Some?
    ensures Encode(Decode(s).value) == Some(s)
  {
    var i := Take(s, 16).value;
    var f := Take(i.rest, 16).value;
    var t := Take(f.rest, 8).value;
    var l := Take(t.rest, 2).value;
    var service := Take(l.rest, FromLe(l.head)).value;
    Powers();
    LeInvertsFromLe(t.head);
    LeInvertsFromLe(l.head);
    Word64Bound(t.head);
    var name := if service.head == [] then None else Some(service.head);
    DecodeTailFacts(i.head, f.head, FromLe(t.head), name, service.rest);
    hide Take, Le, FromLe, Power256, DecodeTail, TailBytes;
    var r := Decode(s).value;
    assert ServiceBytes(r) == service.head;
    TailIs(r);
  }

  lemma TailIs(r: Record)
    requires |r.data| < U32 && |ServiceBytes(r)| < U16
    ensures Encode(r)
      == Some(r.id + (r.flowId + (Le(r.tsNs, 8) + (Le(|ServiceBytes(r)|, 2) + (ServiceBytes(r) + TailBytes(r))))))
  {
  }
}
