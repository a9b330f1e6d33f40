/** `COPY … FROM STDIN` data in PostgreSQL's text format. */
module CopyText {
  import opened Options
  import opened Gathering
  import opened ByteStrings

  // `None` is NULL.
  type Value = Option<Bytes>

  const BACKSLASH: byte := 92
  const TAB: byte := 9
  const NEWLINE: byte := 10
  const RETURN: byte := 13
  const LETTER_N: byte := 78

  /* ---- Encoding ---- */

  function EscapeByte(b: byte): Bytes {
    if b == BACKSLASH then [BACKSLASH, BACKSLASH]
    else if b == TAB then [BACKSLASH, 116]
    else if b == NEWLINE then [BACKSLASH, 110]
    else if b == RETURN then [BACKSLASH, 114]
    else [b]
  }

  function EscapePart(): byte -> Bytes { (b: byte) => EscapeByte(b) }

  function EncodeValue(value: Value): Bytes {
    if value.None? then [BACKSLASH, LETTER_N] else Gather(value.value, EscapePart())
  }

  // Values separated by tabs.
  function EncodeValues(values: seq<Value>): Bytes {
    if values == [] then []
    else
      var n := |values| - 1;
      EncodeValues(values[..n]) + (if n > 0 then [TAB] else []) + EncodeValue(values[n])
  }

  function EncodeRow(values: seq<Value>): Bytes { EncodeValues(values) + [NEWLINE] }

  function RowPart(): seq<Value> -> Bytes { (values: seq<Value>) => EncodeRow(values) }

  function EncodeAll(rows: seq<seq<Value>>): Bytes { Gather(rows, RowPart()) }

  // A `Vec<u8>` the caller owns.
  class Buffer {
    var data: Bytes

    constructor ()
      ensures data == []
    {
      data := [];
    }

    method Push(b: byte)
      modifies this
      ensures data == old(data) + [b]
    {
      data := data + [b];
    }

    method Extend(slice: Bytes)
      modifies this
      ensures data == old(data) + slice
    {
      data := data + slice;
    }
  }

  method PushText(buffer: Buffer, text: Bytes)
    modifies buffer
    ensures buffer.data == old(buffer.data) + EncodeValue(Some(text))
  {
    for i := 0 to |text|
      invariant buffer.data == old(buffer.data) + Gather(text[..i], EscapePart())
    {
      GatherStep(text, i, EscapePart());
      var b := text[i];
      if b == BACKSLASH {
        buffer.Extend([BACKSLASH, BACKSLASH]);
      } else if b == TAB {
        buffer.Extend([BACKSLASH, 116]);
      } else if b == NEWLINE {
        buffer.Extend([BACKSLASH, 110]);
      } else if b == RETURN {
        buffer.Extend([BACKSLASH, 114]);
      } else {
        buffer.Push(b);
      }
    }
    assert text[..|text|] == text;
  }

  method PushValue(buffer: Buffer, value: Value)
    modifies buffer
    ensures buffer.data == old(buffer.data) + EncodeValue(value)
  {
    match value
    case None => buffer.Extend([BACKSLASH, LETTER_N]);
    case Some(text) => PushText(buffer, text);
  }

  lemma EncodeNext(values: seq<Value>, i: nat)
    requires i < |values|
    ensures EncodeValues(values[..i + 1]) ==
      EncodeValues(values[..i]) + (if i > 0 then [TAB] else []) + EncodeValue(values[i])
  {
    assert values[..i + 1][..i] == values[..i];
  }

  method PushCopyTextRow(buffer: Buffer, values: seq<Value>)
    modifies buffer
    ensures buffer.data == old(buffer.data) + EncodeRow(values)
  {
    hide EncodeValue;
    for i := 0 to |values|
      invariant buffer.data == old(buffer.data) + EncodeValues(values[..i])
    {
      EncodeNext(values, i);
      if i > 0 {
        buffer.Push(TAB);
      }
      PushValue(buffer, values[i]);
    }
    assert values[..|values|] == values;
    buffer.Push(NEWLINE);
  }

  /* ---- Decoding, as the PostgreSQL documentation of COPY describes the text format ---- */

  // A line ends at a newline or a carriage return that no backslash escapes.
  function LineLength(data: Bytes): (n: nat)
    ensures n <= |data|
  {
    if data == [] || data[0] == NEWLINE || data[0] == RETURN then 0
    else if data[0] == BACKSLASH && |data| > 1 then 2 + LineLength(data[2..])
    else 1 + LineLength(data[1..])
  }

  // A field ends at a tab that no backslash escapes.
  function FieldLength(line: Bytes): (n: nat)
    ensures n <= |line|
  {
    if line == [] || line[0] == TAB then 0
    else if line[0] == BACKSLASH && |line| > 1 then 2 + FieldLength(line[2..])
    else 1 + FieldLength(line[1..])
  }

  predicate IsOctal(b: byte) { 48 <= b <= 55 }

  predicate IsHex(b: byte) { 48 <= b <= 57 || 65 <= b <= 70 || 97 <= b <= 102 }

  function HexValue(b: byte): int
    requires IsHex(b)
  {
    if b <= 57 then b as int - 48 else if b <= 70 then b as int - 55 else b as int - 87
  }

  function OctalLength(text: Bytes): (n: nat)
    ensures n <= |text| && n <= 3 && forall k :: 0 <= k < n ==> IsOctal(text[k])
  {
    if text == [] || !IsOctal(text[0]) then 0
    else if |text| == 1 || !IsOctal(text[1]) then 1
    else if |text| == 2 || !IsOctal(text[2]) then 2
    else 3
  }

  function OctalValue(digits: Bytes): nat
    requires forall k :: 0 <= k < |digits| ==> IsOctal(digits[k])
  {
    if digits == [] then 0
    else
      assert IsOctal(digits[|digits| - 1]);
      OctalValue(digits[..|digits| - 1]) * 8 + (digits[|digits| - 1] as int - 48)
  }

  // Backslash sequences: the letters b f n r t v, one to three octal digits, x and one or two hex digits; any other
  // character stands for itself.
  function Unescape(raw: Bytes): Bytes {
    if raw == [] then []
    else if raw[0] != BACKSLASH || |raw| == 1 then [raw[0]] + Unescape(raw[1..])
    else
      var c := raw[1];
      if IsOctal(c) then
        var n := OctalLength(raw[1..]);
        [(OctalValue(raw[1..1 + n]) % 256) as byte] + Unescape(raw[1 + n..])
      else if c == 120 && |raw| > 2 && IsHex(raw[2]) then
        if |raw| > 3 && IsHex(raw[3]) then
          [(HexValue(raw[2]) * 16 + HexValue(raw[3])) as byte] + Unescape(raw[4..])
        else [HexValue(raw[2]) as byte] + Unescape(raw[3..])
      else
        var b: byte := if c == 98 then 8 else if c == 102 then 12 else if c == 110 then 10 else if c == 114 then 13
          else if c == 116 then 9 else if c == 118 then 11 else c;
        [b] + Unescape(raw[2..])
  }

  function DecodeValue(raw: Bytes): Value {
    if raw == [BACKSLASH, LETTER_N] then None else Some(Unescape(raw))
  }

  function DecodeLine(line: Bytes): seq<Value> {
    var n := FieldLength(line);
    if n == |line| then [DecodeValue(line)] else [DecodeValue(line[..n])] + DecodeLine(line[n + 1..])
  }

  const END_OF_DATA: Bytes := [BACKSLASH, 46]

  // A newline, a carriage return, or both.
  function EndLength(data: Bytes): (n: nat)
    ensures n <= |data| && (data != [] ==> n > 0)
  {
    if |data| > 1 && data[0] == RETURN && data[1] == NEWLINE then 2 else if data == [] then 0 else 1
  }

  // Every row up to a line that is just `\.`.
  function Decode(data: Bytes): seq<seq<Value>> {
    if data == [] then []
    else
      var n := LineLength(data);
      if data[..n] == END_OF_DATA then []
      else [DecodeLine(data[..n])] + Decode(data[n + EndLength(data[n..])..])
  }
}

/** The decoder undoes the encoder. */
module CopyCorrect {
  import opened Options
  import opened Gathering
  import opened ByteStrings
  import opened CopyText

  // Characters that never look like the end of something.
  predicate Unit(step: Bytes) {
    (|step| == 1 && step[0] != BACKSLASH && step[0] != TAB && step[0] != NEWLINE && step[0] != RETURN) ||
    (|step| == 2 && step[0] == BACKSLASH && step[1] != TAB && step[1] != NEWLINE && step[1] != RETURN)
  }

  lemma EscapedUnit(b: byte)
    ensures Unit(EscapeByte(b))
  {
  }

  // The text without its first unit.
  lemma LengthsAfterUnit(step: Bytes, rest: Bytes)
    requires Unit(step)
    ensures LineLength(step + rest) == |step| + LineLength(rest)
    ensures FieldLength(step + rest) == |step| + FieldLength(rest)
  {
    assert (step + rest)[|step|..] == rest;
  }

  ghost predicate Units(text: Bytes)
    decreases |text|
  {
    text == [] || (|text| > 0 && text[0] != BACKSLASH && Unit(text[..1]) && Units(text[1..])) ||
    (|text| > 1 && text[0] == BACKSLASH && Unit(text[..2]) && Units(text[2..]))
  }

  lemma UnitsAfter(step: Bytes, rest: Bytes)
    requires Unit(step)
    ensures Units(step + rest) <==> Units(rest)
  {
    assert (step + rest)[|step|..] == rest && (step + rest)[..|step|] == step;
  }

  lemma {:induction false} UnitsThen(text: Bytes, rest: Bytes)
    requires Units(text)
    ensures LineLength(text + rest) == |text| + LineLength(rest)
    ensures FieldLength(text + rest) == |text| + FieldLength(rest)
    ensures Units(text + rest) <==> Units(rest)
    decreases |text|
  {
    if text == [] {
      assert text + rest == rest;
    } else {
      var n := if text[0] == BACKSLASH then 2 else 1;
      var step := text[..n];
      assert text + rest == step + (text[n..] + rest);
      LengthsAfterUnit(step, text[n..] + rest);
      UnitsAfter(step, text[n..] + rest);
      UnitsThen(text[n..], rest);
    }
  }

  lemma {:induction false} EscapedUnits(text: Bytes)
    ensures Units(Gather(text, EscapePart()))
  {
    if text != [] {
      var n := |text| - 1;
      EscapedUnits(text[..n]);
      EscapedUnit(text[n]);
      UnitsThen(Gather(text[..n], EscapePart()), EscapeByte(text[n]));
      assert EscapeByte(text[n]) + [] == EscapeByte(text[n]);
      UnitsAfter(EscapeByte(text[n]), []);
    }
  }

  lemma ValueUnits(value: Value)
    ensures Units(EncodeValue(value))
  {
    if value.Some? {
      EscapedUnits(value.value);
    } else {
      UnitsAfter([BACKSLASH, LETTER_N], []);
      assert [BACKSLASH, LETTER_N] + [] == [BACKSLASH, LETTER_N];
    }
  }

  /* ---- One value ---- */

  lemma UnescapeUnit(b: byte, rest: Bytes)
    ensures Unescape(EscapeByte(b) + rest) == [b] + Unescape(rest)
  {
    assert (EscapeByte(b) + rest)[|EscapeByte(b)|..] == rest;
  }

  lemma {:induction false} UnescapeEscaped(text: Bytes)
    ensures Unescape(Gather(text, EscapePart())) == text
  {
    if text != [] {
      GatherFirst(text, EscapePart());
      UnescapeUnit(text[0], Gather(text[1..], EscapePart()));
      UnescapeEscaped(text[1..]);
      assert text == [text[0]] + text[1..];
    }
  }

  // What an escaped text starts with.
  lemma EscapedStart(text: Bytes)
    requires text != []
    ensures var e := Gather(text, EscapePart());
      e != [] && (e[0] == BACKSLASH ==> |e| > 1 && e[1] != LETTER_N && e[1] != 46)
  {
    GatherFirst(text, EscapePart());
    var step, rest := EscapeByte(text[0]), Gather(text[1..], EscapePart());
    assert Gather(text, EscapePart()) == step + rest;
    assert (step + rest)[0] == step[0];
    assert |step| > 1 ==> (step + rest)[1] == step[1];
  }

  // A value that spells `\N` is not NULL.
  lemma NullApart(text: Bytes)
    ensures EncodeValue(Some(text)) != EncodeValue(None)
  {
    if text != [] {
      EscapedStart(text);
    }
  }

  lemma DecodeEncodedValue(value: Value)
    ensures DecodeValue(EncodeValue(value)) == value
  {
    if value.Some? {
      UnescapeEscaped(value.value);
      NullApart(value.value);
    }
  }

  /* ---- One row ---- */

  // Values separated by tabs, from the front.
  function Joined(values: seq<Value>): Bytes
    requires values != []
  {
    if |values| == 1 then EncodeValue(values[0]) else EncodeValue(values[0]) + [TAB] + Joined(values[1..])
  }

  lemma {:induction false} JoinedLast(values: seq<Value>, last: Value)
    requires values != []
    ensures Joined(values + [last]) == Joined(values) + [TAB] + EncodeValue(last)
  {
    var all := values + [last];
    if |values| == 1 {
      assert all[1..] == [last];
    } else {
      assert all[1..] == values[1..] + [last];
      JoinedLast(values[1..], last);
    }
  }

  lemma {:induction false} EncodeIsJoined(values: seq<Value>)
    requires values != []
    ensures EncodeValues(values) == Joined(values)
  {
    var n := |values| - 1;
    if n == 0 {
      assert EncodeValues(values[..0]) == [];
    } else {
      EncodeIsJoined(values[..n]);
      JoinedLast(values[..n], values[n]);
      assert values == values[..n] + [values[n]];
    }
  }

  lemma {:induction false} DecodeJoined(values: seq<Value>)
    requires values != []
    ensures DecodeLine(Joined(values)) == values
  {
    hide EncodeValue, DecodeValue, Units, Unit;
    var first := EncodeValue(values[0]);
    ValueUnits(values[0]);
    DecodeEncodedValue(values[0]);
    if |values| == 1 {
      UnitsThen(first, []);
      assert first + [] == first;
    } else {
      var rest := [TAB] + Joined(values[1..]);
      var line := first + rest;
      assert Joined(values) == line;
      UnitsThen(first, rest);
      assert line[..|first|] == first && line[|first| + 1..] == Joined(values[1..]);
      DecodeJoined(values[1..]);
      assert values == [values[0]] + values[1..];
    }
  }

  lemma {:induction false} JoinedLength(values: seq<Value>, rest: Bytes)
    requires values != []
    ensures LineLength(Joined(values) + [NEWLINE] + rest) == |Joined(values)|
  {
    hide EncodeValue, Units;
    var first := EncodeValue(values[0]);
    ValueUnits(values[0]);
    if |values| == 1 {
      assert Joined(values) + [NEWLINE] + rest == first + ([NEWLINE] + rest);
      UnitsThen(first, [NEWLINE] + rest);
    } else {
      var more := Joined(values[1..]) + [NEWLINE] + rest;
      assert Joined(values) + [NEWLINE] + rest == first + ([TAB] + more);
      UnitsThen(first, [TAB] + more);
      assert ([TAB] + more)[1..] == more;
      JoinedLength(values[1..], rest);
    }
  }

  // No row is the end-of-data marker.
  lemma NeverEndOfData(values: seq<Value>)
    requires values != []
    ensures Joined(values) != END_OF_DATA
  {
    var first := EncodeValue(values[0]);
    assert |values| > 1 ==> |Joined(values)| > |first| && Joined(values)[|first|] == TAB;
    assert forall k :: 0 <= k < |first| ==> Joined(values)[k] == first[k];
    if values[0].Some? && values[0].value != [] {
      EscapedStart(values[0].value);
    }
  }

  /* ---- All rows ---- */

  predicate NoneEmpty(rows: seq<seq<Value>>) { forall i :: 0 <= i < |rows| ==> rows[i] != [] }

  // The first row is read first.
  lemma FirstRowBack(row: seq<Value>, rest: Bytes)
    requires row != []
    ensures Decode(EncodeRow(row) + rest) == [row] + Decode(rest)
  {
    hide DecodeLine, LineLength, EncodeValues, Joined;
    var line, data := Joined(row), EncodeRow(row) + rest;
    EncodeIsJoined(row);
    assert data == line + [NEWLINE] + rest;
    JoinedLength(row, rest);
    NeverEndOfData(row);
    DecodeJoined(row);
    assert data[..|line|] == line && data[|line| + 1..] == rest;
  }

  // The decoder returns exactly the rows, over all bytes.
  lemma {:induction false} CopyRoundTrip(rows: seq<seq<Value>>)
    requires NoneEmpty(rows)
    ensures Decode(EncodeAll(rows)) == rows
  {
    hide Decode, EncodeRow;
    if rows == [] {
      NothingBack();
    } else {
      GatherFirst(rows, RowPart());
      FirstRowBack(rows[0], EncodeAll(rows[1..]));
      CopyRoundTrip(rows[1..]);
      assert rows == [rows[0]] + rows[1..];
    }
  }

  lemma NothingBack()
    ensures Decode(EncodeAll([])) == []
  {
  }
}
