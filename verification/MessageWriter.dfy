/** `FormattedMessage`: its bytes, written through a writer that may take them a few at a time. */
module MessageWriter {
  import opened Grammar
  import opened LogFormatter

  datatype IoResult = Wrote(count: nat) | WriteZero | WriterError

  // ---- UTF-8 ----

  /** One scalar value in UTF-8, RFC 3629 section 3. */
  function Encode(c: char): seq<Byte> {
    var n := c as int;
    if n < 0x80 then [n]
    else if n < 0x800 then [0xC0 + n / 0x40, 0x80 + n % 0x40]
    else if n < 0x1_0000 then [0xE0 + n / 0x1000, 0x80 + n / 0x40 % 0x40, 0x80 + n % 0x40]
    else [0xF0 + n / 0x4_0000, 0x80 + n / 0x1000 % 0x40, 0x80 + n / 0x40 % 0x40, 0x80 + n % 0x40]
  }

  function Utf8(s: string): seq<Byte> {
    if s == "" then [] else Encode(s[0]) + Utf8(s[1..])
  }

  lemma {:induction false} Utf8Concat(a: string, b: string)
    ensures Utf8(a + b) == Utf8(a) + Utf8(b)
  {
    if a == "" { assert a + b == b; }
    else {
      assert (a + b)[1..] == a[1..] + b;
      Utf8Concat(a[1..], b);
    }
  }

  // ---- Slices ----

  function Flatten(slices: seq<seq<Byte>>): seq<Byte> {
    if slices == [] then [] else slices[0] + Flatten(slices[1..])
  }

  lemma {:induction false} FlattenConcat(a: seq<seq<Byte>>, b: seq<seq<Byte>>)
    ensures Flatten(a + b) == Flatten(a) + Flatten(b)
  {
    if a == [] { assert a + b == b; }
    else {
      assert (a + b)[1..] == a[1..] + b;
      FlattenConcat(a[1..], b);
    }
  }

  /** What one cell contributes: nothing at all when it is unset and unset cells are omitted. */
  function SlicesOf(cell: Cell, omit: bool): seq<seq<Byte>> {
    match cell
    case Smol(s) => [Utf8(s)]
    case Bytes(b) => [b]
    case Array(s) => [Utf8(s)]
    case Unset => if omit then [] else [Utf8("-")]
  }

  function AllSlices(format: seq<Cell>, omit: bool): seq<seq<Byte>> {
    if format == [] then [] else SlicesOf(format[0], omit) + AllSlices(format[1..], omit)
  }

  lemma {:induction false} AllSlicesAppend(format: seq<Cell>, cell: Cell, omit: bool)
    ensures AllSlices(format + [cell], omit) == AllSlices(format, omit) + SlicesOf(cell, omit)
  {
    if format == [] { assert [cell][1..] == []; }
    else {
      assert (format + [cell])[1..] == format[1..] + [cell];
      AllSlicesAppend(format[1..], cell, omit);
    }
  }

  function Message(format: seq<Cell>, omit: bool): seq<Byte> {
    Flatten(AllSlices(format, omit))
  }

  /** `IoSlice::advance_slices`: drops what was written, and with it every slice that is used up,
      empty ones included. */
  method AdvanceSlices(slices: seq<seq<Byte>>, count: nat) returns (rest: seq<seq<Byte>>)
    requires count <= |Flatten(slices)|
    ensures Flatten(rest) == Flatten(slices)[count..]
    ensures rest != [] ==> rest[0] != []
  {
    var remove: nat, left: nat := 0, count;
    assert slices[0..] == slices;
    while remove < |slices| && |slices[remove]| <= left
      invariant 0 <= remove <= |slices| && left <= |Flatten(slices[remove..])|
      invariant Flatten(slices[remove..])[left..] == Flatten(slices)[count..]
    {
      assert slices[remove..][1..] == slices[remove + 1..];
      assert Flatten(slices[remove..])[left..] == Flatten(slices[remove + 1..])[left - |slices[remove]|..];
      left := left - |slices[remove]|;
      remove := remove + 1;
    }
    rest := slices[remove..];
    if rest != [] {
      var advanced := [rest[0][left..]] + rest[1..];
      assert advanced[1..] == rest[1..];
      assert Flatten(rest)[left..] == rest[0][left..] + Flatten(rest[1..]);
      rest := advanced;
    }
  }

  // ---- Writers ----

  /** A writer that follows a plan: how much to take on each call, or to fail. Past its plan it
      takes everything. Every writer behaves like one with some plan. */
  class Writer {
    var written: seq<Byte>
    var plan: seq<Step>

    /** It never fails and always makes progress. */
    predicate Steady()
      reads this
    {
      forall i :: 0 <= i < |plan| ==> plan[i].Take? && plan[i].atMost > 0
    }

    method WriteVectored(slices: seq<seq<Byte>>) returns (r: IoResult)
      modifies this
      ensures r.Wrote? || r.WriterError?
      ensures r.WriterError? ==> written == old(written)
      ensures r.Wrote? ==> r.count <= |Flatten(slices)| && written == old(written) + Flatten(slices)[..r.count]
      ensures old(Steady()) ==> Steady() && r.Wrote? && (Flatten(slices) != [] ==> r.count > 0)
    {
      var bytes := Flatten(slices);
      var count := |bytes|;
      if plan != [] {
        var step := plan[0];
        plan := plan[1..];
        if step.Fail? { return WriterError; }
        if step.atMost < count { count := step.atMost; }
      }
      written := written + bytes[..count];
      return Wrote(count);
    }
  }

  datatype Step = Take(atMost: nat) | Fail

  method Collect(format: seq<Cell>, omit: bool) returns (slices: seq<seq<Byte>>)
    ensures slices == AllSlices(format, omit)
  {
    slices := [];
    for i := 0 to |format|
      invariant slices == AllSlices(format[..i], omit)
    {
      assert format[..i + 1] == format[..i] + [format[i]];
      AllSlicesAppend(format[..i], format[i], omit);
      slices := slices + SlicesOf(format[i], omit);
    }
    assert format[..|format|] == format;
  }

  lemma {:induction false} Sent(message: seq<Byte>, sent: nat, count: nat)
    requires sent + count <= |message|
    ensures message[..sent] + message[sent..][..count] == message[..sent + count]
    ensures message[sent..][count..] == message[sent + count..]
  {
  }

  /** The loop over the slices that are left. */
  method WriteSlices(slices: seq<seq<Byte>>, w: Writer) returns (r: IoResult)
    modifies w
    ensures r.Wrote? ==> r.count == |Flatten(slices)| && w.written == old(w.written) + Flatten(slices)
    ensures old(w.written) <= w.written <= old(w.written) + Flatten(slices)
    ensures Flatten(slices) == [] && slices != [] ==> !r.Wrote?
    ensures old(w.Steady()) ==> (r.Wrote? <==> Flatten(slices) != [] || slices == [])
    ensures old(w.Steady()) && !r.Wrote? ==> r.WriteZero? && w.written == old(w.written)
  {
    ghost var message := Flatten(slices);
    var total := |Flatten(slices)|;
    var remaining := slices;
    ghost var sent := 0;
    assert message[..0] == [] && message[0..] == message;
    while remaining != []
      invariant 0 <= sent <= |message|
      invariant w.written == old(w.written) + message[..sent]
      invariant Flatten(remaining) == message[sent..]
      invariant remaining != [] && sent > 0 ==> remaining[0] != []
      invariant sent == 0 && message == [] ==> remaining == slices
      invariant old(w.Steady()) ==> w.Steady()
      decreases |message| - sent
    {
      var step := w.WriteVectored(remaining);
      if step.WriterError? { return WriterError; }
      Sent(message, sent, step.count);
      if step.count == 0 { return WriteZero; }
      remaining := AdvanceSlices(remaining, step.count);
      sent := sent + step.count;
    }
    assert message[..|message|] == message;
    return Wrote(total);
  }

  /** However the writer splits the bytes, success means that exactly the message was written and
      its length returned, and failure that a prefix was. A steady writer brings every message
      through except one that has slices but no byte, which no writer does: there the loop's first call
      writes nothing and is taken for a stuck writer. */
  method WriteTo(format: seq<Cell>, omit: bool, w: Writer) returns (r: IoResult)
    modifies w
    ensures r.Wrote? ==> r.count == |Message(format, omit)| && w.written == old(w.written) + Message(format, omit)
    ensures old(w.written) <= w.written <= old(w.written) + Message(format, omit)
    ensures Message(format, omit) == [] && AllSlices(format, omit) != [] ==> !r.Wrote?
    ensures old(w.Steady()) ==> (r.Wrote? <==> Message(format, omit) != [] || AllSlices(format, omit) == [])
    ensures old(w.Steady()) && !r.Wrote? ==> r.WriteZero? && w.written == old(w.written)
  {
    var slices := Collect(format, omit);
    r := WriteSlices(slices, w);
  }

  /** A cell takes part in writing unless it is unset and unset cells are omitted. */
  predicate Written(cell: Cell, omit: bool) {
    !(cell.Unset? && omit)
  }

  predicate Blank(cell: Cell) {
    match cell
    case Smol(s) => s == ""
    case Bytes(b) => b == []
    case Array(s) => s == ""
    case Unset => false
  }

  lemma {:induction false} OwnSlices(cell: Cell, omit: bool)
    ensures SlicesOf(cell, omit) != [] <==> Written(cell, omit)
    ensures Written(cell, omit) ==> (Flatten(SlicesOf(cell, omit)) == [] <==> Blank(cell))
  {
    var own := SlicesOf(cell, omit);
    if own != [] { assert own[1..] == [] && Flatten(own) == own[0] + []; }
  }

  /** A message is one that `write_to` cannot bring through just when some cell is written and every
      written cell is blank. */
  lemma {:induction false} SilentExactly(format: seq<Cell>, omit: bool)
    ensures AllSlices(format, omit) == [] <==> forall i :: 0 <= i < |format| ==> !Written(format[i], omit)
    ensures Message(format, omit) == []
      <==> forall i :: 0 <= i < |format| && Written(format[i], omit) ==> Blank(format[i])
  {
    if format == [] {
    } else {
      var rest := format[1..];
      SilentExactly(rest, omit);
      OwnSlices(format[0], omit);
      FlattenConcat(SlicesOf(format[0], omit), AllSlices(rest, omit));
      assert forall i :: 0 < i < |format| ==> format[i] == rest[i - 1];
      assert forall i :: 0 <= i < |rest| ==> rest[i] == format[i + 1];
    }
  }

  /** Such messages arise: a format of one custom operator, given the empty string. */
  lemma {:induction false} SilentMessageArises(name: string, omit: bool)
    ensures
      var templates := [Custom(name)];
      var format := FilledAll(templates, Initial(templates), [FromPair(name, "")]);
      format == [Smol("")] && AllSlices(format, omit) == [[]] && Message(format, omit) == []
  {
    var templates, fill := [Custom(name)], FromPair(name, "");
    assert [fill][1..] == [];
    assert Initial(templates) == [Unset] && Filled(templates, [Unset], fill) == [Smol("")];
    assert [Smol("")][1..] == [] && [Utf8("")] + [] == [[]];
    assert Flatten([[]]) == [];
  }

  // ---- Display ----

  ghost predicate ValidUtf8(bytes: seq<Byte>) {
    exists s :: Utf8(s) == bytes
  }

  /** What decoding gives for valid bytes: the text they encode. */
  ghost function Decoded(bytes: seq<Byte>): (s: string)
    requires ValidUtf8(bytes)
    ensures Utf8(s) == bytes
  {
    var s :| Utf8(s) == bytes;
    s
  }

  ghost predicate Decodable(format: seq<Cell>) {
    forall i :: 0 <= i < |format| && format[i].Bytes? ==> ValidUtf8(format[i].bytes)
  }

  ghost function CellText(cell: Cell, omit: bool): string
    requires cell.Bytes? ==> ValidUtf8(cell.bytes)
  {
    match cell
    case Smol(s) => s
    case Bytes(b) => Decoded(b)
    case Array(s) => s
    case Unset => if omit then "" else "-"
  }

  ghost function Display(format: seq<Cell>, omit: bool): string
    requires Decodable(format)
  {
    if format == [] then "" else CellText(format[0], omit) + Display(format[1..], omit)
  }

  /** What is written is the UTF-8 of what is displayed, when the byte cells hold valid UTF-8. */
  lemma {:induction false} WrittenIsDisplayed(format: seq<Cell>, omit: bool)
    requires Decodable(format)
    ensures Message(format, omit) == Utf8(Display(format, omit))
  {
    if format == [] {
    } else {
      WrittenIsDisplayed(format[1..], omit);
      FlattenConcat(SlicesOf(format[0], omit), AllSlices(format[1..], omit));
      Utf8Concat(CellText(format[0], omit), Display(format[1..], omit));
      var own := SlicesOf(format[0], omit);
      if own != [] { assert own[1..] == [] && Flatten(own) == own[0] + []; }
    }
  }
}
