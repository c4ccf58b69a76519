/**
  DataRow bodies: each cell is a big-endian i32 length followed by that many
  bytes, with length -1 for NULL. One encoder is shared by the receiver callback
  of the direct backend and by the row loops of the SPI backends.
*/
module DataRow {
  import opened Wrappers
  import opened Text

  type Cell = Option<seq<byte>>

  datatype Row = Row(data: seq<byte>, fieldCount: int)

  const I32_LIMIT: int := 0x8000_0000
  const U32_LIMIT: int := 0x1_0000_0000

  /** `put_i32(v as i32)`: the low 32 bits, most significant byte first. */
  function I32Bytes(v: int): (b: seq<byte>)
    ensures |b| == 4
  {
    var u := v % U32_LIMIT;
    [u / 0x100_0000, u / 0x1_0000 % 0x100, u / 0x100 % 0x100, u % 0x100]
  }

  /** Reading the four bytes back as a signed 32-bit number. */
  function BytesI32(b: seq<byte>): (v: int)
    requires |b| == 4
    ensures -I32_LIMIT <= v < I32_LIMIT
  {
    var u := b[0] as int * 0x100_0000 + b[1] as int * 0x1_0000 + b[2] as int * 0x100 + b[3] as int;
    if u < I32_LIMIT then u else u - U32_LIMIT
  }

  lemma I32RoundTrip(v: int)
    ensures BytesI32(I32Bytes(v)) == v <==> -I32_LIMIT <= v < I32_LIMIT
  {
    var u := v % U32_LIMIT;
    assert u / 0x1_0000 == u / 0x100_0000 * 0x100 + u / 0x1_0000 % 0x100;
    assert u / 0x100 == u / 0x1_0000 * 0x100 + u / 0x100 % 0x100;
    assert u == u / 0x100 * 0x100 + u % 0x100;
  }

  /** `n as i16`. */
  function AsI16(n: int): int {
    (n + 0x8000) % 0x1_0000 - 0x8000
  }

  lemma AsI16Id(n: int)
    ensures AsI16(n) == n <==> -0x8000 <= n < 0x8000
  {
  }

  function Field(c: Cell): seq<byte> {
    match c
    case None => I32Bytes(-1)
    case Some(b) => I32Bytes(|b|) + b
  }

  function Concat(parts: seq<seq<byte>>): seq<byte> {
    if parts == [] then [] else Concat(parts[..|parts| - 1]) + parts[|parts| - 1]
  }

  lemma {:induction false} ConcatFront(parts: seq<seq<byte>>)
    requires parts != []
    ensures Concat(parts) == parts[0] + Concat(parts[1..])
  {
    var n := |parts|;
    if n == 1 {
      assert parts[..0] == [] && parts[1..] == [];
    } else {
      ConcatFront(parts[..n - 1]);
      assert parts[..n - 1][1..] == parts[1..][..n - 2];
    }
  }

  function Fields(cells: seq<Cell>): seq<seq<byte>> {
    seq(|cells|, i requires 0 <= i < |cells| => Field(cells[i]))
  }

  function Body(cells: seq<Cell>): seq<byte> {
    Concat(Fields(cells))
  }

  lemma BodySnoc(cells: seq<Cell>, c: Cell)
    ensures Body(cells + [c]) == Body(cells) + Field(c)
  {
    var fields := Fields(cells + [c]);
    assert fields[..|fields| - 1] == Fields(cells);
  }

  function RowOf(cells: seq<Cell>): Row {
    Row(Body(cells), AsI16(|cells|))
  }

  /** A client reading `n` fields; the body must be used up exactly. */
  function Read(data: seq<byte>, n: nat): (r: Option<seq<Cell>>)
    ensures r.Some? ==> |r.value| == n && forall i :: 0 <= i < n && r.value[i].Some? ==> |r.value[i].value| < I32_LIMIT
  {
    if n == 0 then if data == [] then Some([]) else None
    else if |data| < 4 then None
    else
      var len := BytesI32(data[..4]);
      if len == -1 then Prepend(None, Read(data[4..], n - 1))
      else if len < 0 || |data| < 4 + len then None
      else Prepend(Some(data[4..4 + len]), Read(data[4 + len..], n - 1))
  }

  function Prepend(c: Cell, rest: Option<seq<Cell>>): Option<seq<Cell>> {
    match rest
    case None => None
    case Some(cells) => Some([c] + cells)
  }

  function ReadRow(r: Row): Option<seq<Cell>> {
    if r.fieldCount < 0 then None else Read(r.data, r.fieldCount)
  }

  predicate Fits(cells: seq<Cell>) {
    forall i :: 0 <= i < |cells| && cells[i].Some? ==> |cells[i].value| < I32_LIMIT
  }

  lemma ReadField(c: Cell, rest: seq<byte>, n: nat)
    requires c.Some? ==> |c.value| < I32_LIMIT
    ensures Read(Field(c) + rest, n + 1) == Prepend(c, Read(rest, n))
  {
    var data := Field(c) + rest;
    match c
    case None =>
      I32RoundTrip(-1);
      assert data[..4] == I32Bytes(-1) && data[4..] == rest;
    case Some(b) =>
      I32RoundTrip(|b|);
      assert data[..4] == I32Bytes(|b|) && data[4..4 + |b|] == b && data[4 + |b|..] == rest;
  }

  lemma BodyFront(cells: seq<Cell>)
    requires cells != []
    ensures Body(cells) == Field(cells[0]) + Body(cells[1..])
  {
    ConcatFront(Fields(cells));
    assert Fields(cells)[1..] == Fields(cells[1..]);
  }

  lemma {:induction false} ReadBody(cells: seq<Cell>)
    requires Fits(cells)
    ensures Read(Body(cells), |cells|) == Some(cells)
  {
    if cells != [] {
      var c, rest := cells[0], cells[1..];
      ReadBody(rest);
      BodyFront(cells);
      ReadField(c, Body(rest), |rest|);
      assert cells == [c] + rest;
    }
  }

  /** The client reads back exactly the cells that were sent iff cell lengths and column count fit their fields. */
  lemma RowRoundTrip(cells: seq<Cell>)
    ensures ReadRow(RowOf(cells)) == Some(cells) <==> Fits(cells) && |cells| < 0x8000
  {
    AsI16Id(|cells|);
    var r := RowOf(cells);
    if Fits(cells) && |cells| < 0x8000 {
      ReadBody(cells);
    } else if r.fieldCount >= 0 {
      var back := Read(r.data, r.fieldCount);
      assert back.Some? ==> |back.value| == r.fieldCount && Fits(back.value);
    }
  }

  // ---------------------------------------------------------------------------
  // The encoder and the row loops
  // ---------------------------------------------------------------------------

  /** A column's cached output function: text functions return a NUL-terminated C string. */
  datatype ColumnEncoder<!D> = Text(output: D -> seq<byte>) | Binary(send: D -> seq<byte>)

  function UntilNul(b: seq<byte>): seq<byte> {
    if b == [] || b[0] == 0 then [] else [b[0]] + UntilNul(b[1..])
  }

  function Payload<D>(e: ColumnEncoder<D>, datum: D): seq<byte> {
    match e
    case Text(output) => UntilNul(output(datum))
    case Binary(send) => send(datum)
  }

  function CellOf<D>(e: ColumnEncoder<D>, datum: Option<D>): Cell {
    match datum
    case None => None
    case Some(d) => Some(Payload(e, d))
  }

  /** The cells a tuple shows to the client, column by column. */
  function CellsOf<D>(encoders: seq<ColumnEncoder<D>>, tuple: seq<Option<D>>): seq<Cell>
    requires |encoders| == |tuple|
  {
    seq(|tuple|, i requires 0 <= i < |tuple| => CellOf(encoders[i], tuple[i]))
  }

  lemma CellsOfPrefix<D>(encoders: seq<ColumnEncoder<D>>, tuple: seq<Option<D>>, c: nat)
    requires |encoders| == |tuple| && c < |tuple|
    ensures var cells := CellsOf(encoders, tuple);
            Body(cells[..c + 1]) == Body(cells[..c]) + Field(CellOf(encoders[c], tuple[c]))
  {
    var cells := CellsOf(encoders, tuple);
    assert cells[..c + 1] == cells[..c] + [cells[c]];
    BodySnoc(cells[..c], cells[c]);
  }

  class BytesMut {
    var bytes: seq<byte>

    constructor ()
      ensures bytes == []
    {
      bytes := [];
    }

    method PutI32(v: int)
      modifies this
      ensures bytes == old(bytes) + I32Bytes(v)
    {
      bytes := bytes + I32Bytes(v);
    }

    method PutSlice(b: seq<byte>)
      modifies this
      ensures bytes == old(bytes) + b
    {
      bytes := bytes + b;
    }
  }

  method EncodeInto<D>(e: ColumnEncoder<D>, datum: D, buf: BytesMut)
    modifies buf
    ensures buf.bytes == old(buf.bytes) + Field(Some(Payload(e, datum)))
  {
    match e
    case Text(output) =>
      var slice := UntilNul(output(datum));
      buf.PutI32(|slice|);
      buf.PutSlice(slice);
    case Binary(send) =>
      var slice := send(datum);
      buf.PutI32(|slice|);
      buf.PutSlice(slice);
  }

  /** The `receiveSlot` callback: the executor's parallel value and null arrays become one row. */
  method WireReceiveSlot<D>(values: seq<D>, isNull: seq<bool>, encoders: seq<ColumnEncoder<D>>) returns (row: Row)
    requires |values| == |isNull| == |encoders|
    ensures row == RowOf(CellsOf(encoders, TupleOf(values, isNull)))
  {
    var buf := new BytesMut();
    ghost var cells := CellsOf(encoders, TupleOf(values, isNull));
    for c := 0 to |encoders|
      invariant buf.bytes == Body(cells[..c])
    {
      CellsOfPrefix(encoders, TupleOf(values, isNull), c);
      if isNull[c] {
        buf.PutI32(-1);
      } else {
        EncodeInto(encoders[c], values[c], buf);
      }
    }
    assert cells[..|encoders|] == cells;
    row := Row(buf.bytes, AsI16(|encoders|));
  }

  function TupleOf<D>(values: seq<D>, isNull: seq<bool>): (t: seq<Option<D>>)
    requires |values| == |isNull|
    ensures |t| == |values|
  {
    seq(|values|, i requires 0 <= i < |values| => if isNull[i] then None else Some(values[i]))
  }

  method EncodeTuple<D>(tuple: seq<Option<D>>, encoders: seq<ColumnEncoder<D>>) returns (row: Row)
    requires |tuple| == |encoders|
    ensures row == RowOf(CellsOf(encoders, tuple))
  {
    var buf := new BytesMut();
    ghost var cells := CellsOf(encoders, tuple);
    for c := 0 to |encoders|
      invariant buf.bytes == Body(cells[..c])
    {
      CellsOfPrefix(encoders, tuple, c);
      match tuple[c] {
        case None => buf.PutI32(-1);
        case Some(datum) => EncodeInto(encoders[c], datum, buf);
      }
    }
    assert cells[..|encoders|] == cells;
    row := Row(buf.bytes, AsI16(|encoders|));
  }

  /** The row loop of both SPI backends: nullable cells of every tuple, one buffer a row. */
  method MaterialiseRows<D>(tuples: seq<seq<Option<D>>>, encoders: seq<ColumnEncoder<D>>) returns (rows: seq<Row>)
    requires forall i :: 0 <= i < |tuples| ==> |tuples[i]| == |encoders|
    ensures |rows| == |tuples|
    ensures forall i :: 0 <= i < |tuples| ==> rows[i] == RowOf(CellsOf(encoders, tuples[i]))
  {
    rows := [];
    for r := 0 to |tuples|
      invariant |rows| == r
      invariant forall i :: 0 <= i < r ==> rows[i] == RowOf(CellsOf(encoders, tuples[i]))
    {
      var row := EncodeTuple(tuples[r], encoders);
      rows := rows + [row];
    }
  }

  /** The encoding is injective on rows that fit, so equal rows from any of the backends name the same cells. */
  lemma RowsDetermineCells(a: seq<Cell>, b: seq<Cell>)
    requires Fits(a) && Fits(b) && |a| < 0x8000 && |b| < 0x8000
    requires RowOf(a) == RowOf(b)
    ensures a == b
  {
    RowRoundTrip(a);
    RowRoundTrip(b);
  }

  predicate NulFree(s: seq<byte>) { forall i :: 0 <= i < |s| ==> s[i] != 0 }

  lemma {:induction false} UntilNulStops(s: seq<byte>, rest: seq<byte>)
    requires NulFree(s)
    ensures UntilNul(s + [0] + rest) == s
  {
    var b := s + [0] + rest;
    if s != [] {
      assert b[0] == s[0] && b[1..] == s[1..] + [0] + rest;
      UntilNulStops(s[1..], rest);
    }
  }

  /** A text column shows what its output function wrote in front of the NUL, a binary column every byte it sent. */
  lemma CellShows<D>(output: D -> seq<byte>, datum: D, s: seq<byte>, rest: seq<byte>)
    requires NulFree(s) && output(datum) == s + [0] + rest
    ensures CellOf(Text(output), Some(datum)) == Some(s)
    ensures CellOf(Binary(output), Some(datum)) == Some(s + [0] + rest)
    ensures CellOf(Text(output), None) == None
  {
    UntilNulStops(s, rest);
  }

  /** A field on the wire: a big-endian length with the bytes behind it, or four bytes 255 for NULL. */
  lemma FieldLayout(b: seq<byte>)
    requires |b| < I32_LIMIT
    ensures Field(None) == [255, 255, 255, 255]
    ensures var f := Field(Some(b));
            && |f| == 4 + |b| && f[4..] == b
            && f[0] as int * 0x100_0000 + f[1] as int * 0x1_0000 + f[2] as int * 0x100 + f[3] as int == |b|
  {
    assert I32Bytes(-1) == [255, 255, 255, 255];
    I32RoundTrip(|b|);
    assert Field(Some(b))[4..] == b;
  }
}
