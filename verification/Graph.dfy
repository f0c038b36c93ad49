/** Property values and graph records, with the sizes of their serialized forms. */
module Graph {
  import opened Wrappers

  type Byte = b: int | 0 <= b < 256

  type Bits64 = b: int | 0 <= b < 0x1_0000_0000_0000_0000

  /** Property values. A floating-point number is held as its 64 bits, text as its UTF-8
      bytes. */
  datatype Value =
    | NullVal | BoolVal(b: bool) | IntVal(n: int) | FloatVal(bits: Bits64)
    | StringVal(utf8: seq<Byte>) | BytesVal(bytes: seq<Byte>)
    | ArrayVal(items: seq<Value>) | DateTimeVal(millis: int)

  type Props = seq<(nat, Value)>

  datatype NodeRecord = NodeRecord(id: nat, labels: seq<nat>, props: Props)

  datatype EdgeRecord = EdgeRecord(id: nat, start: nat, end: nat, relType: nat, props: Props)

  datatype Entity =
    | NodeEntity(raw: nat) | SubgraphEntity(raw: nat) | HyperEdgeEntity(raw: nat)
    | TemporalRef(raw: nat, at: int)

  datatype SubgraphRecord = SubgraphRecord(id: nat, anchor: Option<int>, props: Props)

  datatype HyperEdgeRecord = HyperEdgeRecord(id: nat, relType: nat, sources: seq<Entity>, targets: seq<Entity>, props: Props)

  // ---------------------------------------------------------------------------
  // Serialized sizes
  // ---------------------------------------------------------------------------

  /** An element of an array value: a four-byte tag, then the payload. */
  function ElementSize(v: Value): nat
    decreases v, 1
  {
    match v
    case NullVal => 4
    case BoolVal(_) => 5
    case IntVal(_) => 12
    case FloatVal(_) => 12
    case StringVal(s) => 12 + |s|
    case BytesVal(s) => 12 + |s|
    case ArrayVal(items) => 4 + ArraySize(items)
    case DateTimeVal(_) => 12
  }

  function ArraySize(items: seq<Value>): nat
    decreases items, 0
  {
    if items == [] then 8 else ElementSize(items[0]) + ArraySize(items[1..])
  }

  function ValueSize(v: Value): nat {
    match v
    case NullVal => 0
    case BoolVal(_) => 1
    case IntVal(_) => 8
    case FloatVal(_) => 8
    case StringVal(s) => |s|
    case BytesVal(s) => |s|
    case ArrayVal(items) => ArraySize(items)
    case DateTimeVal(_) => 8
  }

  function PropsSize(props: Props): nat {
    if props == [] then 0 else 2 + 5 + ValueSize(props[0].1) + PropsSize(props[1..])
  }

  function NodeSize(n: NodeRecord): nat {
    13 + 4 * |n.labels| + PropsSize(n.props)
  }

  function EdgeSize(e: EdgeRecord): nat {
    31 + PropsSize(e.props)
  }

  function EntitiesSize(es: seq<Entity>): nat {
    if es == [] then 0 else (if es[0].TemporalRef? then 17 else 9) + EntitiesSize(es[1..])
  }

  function SubgraphSize(s: SubgraphRecord, members: seq<nat>): nat {
    14 + (if s.anchor.Some? then 8 else 0) + PropsSize(s.props) + 8 * |members|
  }

  function HyperEdgeSize(h: HyperEdgeRecord): nat {
    19 + EntitiesSize(h.sources) + EntitiesSize(h.targets) + PropsSize(h.props)
  }
}
