/**
 * What the chunk decoder makes of any bytes at all (src/files.rs, `Dechunker`): which size lines it accepts, and how
 * every input splits into chunks and one rest.
 */
module ChunkSyntax {
  import opened Base
  import opened Dechunking

  // ----- Size lines -----

  /** What counts of a size line: everything before a semicolon but carriage returns. */
  function SizeText(line: seq<byte>): seq<byte> {
    if line == [] then []
    else
      var front, b := line[..|line| - 1], line[|line| - 1];
      if SEMICOLON in front || b == SEMICOLON || b == RETURN then SizeText(front) else SizeText(front) + [b]
  }

  /** Hexadecimal digits of either case, worth at most 2^32 - 1. */
  predicate Numeral(text: seq<byte>) {
    && (forall i :: 0 <= i < |text| ==> 48 <= text[i] <= 57 || 97 <= text[i] <= 102 || 65 <= text[i] <= 70)
    && Worth(text) <= 0xFFFF_FFFF
  }

  function Worth(text: seq<byte>): nat {
    if text == [] then 0
    else
      var b := text[|text| - 1];
      Worth(text[..|text| - 1]) * 16 +
      (if 48 <= b <= 57 then b - 48 else if 97 <= b <= 102 then b - 87 else if 65 <= b <= 70 then b - 55 else 0)
  }

  lemma NumeralGrows(text: seq<byte>, b: byte)
    requires Numeral(text)
    ensures Numeral(text + [b]) <==>
      DigitValue(b).Some? && Worth(text) * 16 + DigitValue(b).value <= 0xFFFF_FFFF
    ensures DigitValue(b).Some? ==> Worth(text + [b]) == Worth(text) * 16 + DigitValue(b).value
  {
    var longer := text + [b];
    assert longer[..|text|] == text && longer[|text|] == b;
    assert forall i :: 0 <= i < |text| ==> longer[i] == text[i];
  }

  lemma NumeralFront(text: seq<byte>, b: byte)
    requires Numeral(text + [b])
    ensures Numeral(text)
  {
    var longer := text + [b];
    assert longer[..|text|] == text;
    assert forall i :: 0 <= i < |text| ==> longer[i] == text[i];
  }

  lemma SizeTextGrows(line: seq<byte>, b: byte)
    ensures SizeText(line + [b]) ==
      if SEMICOLON in line || b == SEMICOLON || b == RETURN then SizeText(line) else SizeText(line) + [b]
  {
    assert (line + [b])[..|line|] == line;
  }

  /** A decoder about to read a size line. */
  const AT_SIZE: Decoder := INITIAL

  /** Where a size line that has not ended leaves the decoder. */
  function InLine(line: seq<byte>): Decoder {
    AT_SIZE.(state := if SEMICOLON in line then Extension else Size, size := Worth(SizeText(line)),
             seenDigit := SizeText(line) != [])
  }

  /** While its line lasts the decoder fails exactly when what counts of the line is no longer a numeral. */
  lemma {:induction false} LineSoFar(line: seq<byte>)
    requires NEWLINE !in line
    ensures Run(AT_SIZE, line).payload == []
    ensures var d := Run(AT_SIZE, line).decoder;
      if Numeral(SizeText(line)) then d == InLine(line) else d.bad && d.done
  {
    if line != [] {
      var front, b := line[..|line| - 1], line[|line| - 1];
      assert line == front + [b];
      LineSoFar(front);
      SizeTextGrows(front, b);
      RunSplits(AT_SIZE, front, [b]);
      hide Run, SizeText, Numeral;
      if Numeral(SizeText(front)) {
        RunOne(InLine(front), b);
        NumeralGrows(SizeText(front), b);
        LineStep(front, b);
      } else {
        RunStops(Run(AT_SIZE, front).decoder, [b]);
        if Numeral(SizeText(line)) && SizeText(line) != SizeText(front) {
          NumeralFront(SizeText(front), b);
        }
      }
    }
  }

  lemma LineStep(front: seq<byte>, b: byte)
    requires Numeral(SizeText(front)) && b != NEWLINE
    ensures var d := Step(InLine(front), b);
      && d.payload == []
      && if Numeral(SizeText(front + [b])) then d.decoder == InLine(front + [b]) else d.decoder.bad && d.decoder.done
  {
    hide SizeText, Numeral, Worth, DigitValue;
    SizeTextGrows(front, b);
    assert SEMICOLON in front + [b] <==> SEMICOLON in front || b == SEMICOLON;
    NumeralGrows(SizeText(front), b);
    if SEMICOLON !in front && b != SEMICOLON && b != RETURN && DigitValue(b).None? {
      assert !Numeral(SizeText(front) + [b]);
    }
  }

  /** A numeral at the head of the line. */
  predicate Sized(line: seq<byte>) {
    SizeText(line) != [] && Numeral(SizeText(line))
  }

  /**
   * A size line is refused exactly when what counts of it is empty, or not a numeral; otherwise its value is the length
   * of the data that follows, zero ending the body.
   */
  lemma SizeLineIff(line: seq<byte>)
    requires NEWLINE !in line
    ensures var r, n := Run(AT_SIZE, line + [NEWLINE]), Worth(SizeText(line));
      && r.payload == []
      && (r.decoder.bad <==> !Sized(line))
      && (r.decoder.done <==> !Sized(line) || n == 0)
      && (Sized(line) && n > 0 ==> r.decoder == Decoder(Data(n), n, true, false, false))
  {
    LineSoFar(line);
    RunSplits(AT_SIZE, line, [NEWLINE]);
    hide Run, SizeText, Numeral, Worth;
    var d := Run(AT_SIZE, line).decoder;
    if d.done {
      RunStops(d, [NEWLINE]);
    } else {
      RunOne(d, NEWLINE);
    }
  }

  // ----- Chunks -----

  /** A chunk as the decoder takes it: any size line it accepts, the data, and any two bytes. */
  datatype Loose = Loose(line: seq<byte>, data: seq<byte>, end: seq<byte>)
  {
    predicate Valid() {
      NEWLINE !in line && Sized(line) && Worth(SizeText(line)) == |data| > 0 && |end| == 2
    }

    function Bytes(): seq<byte> {
      line + [NEWLINE] + data + end
    }
  }

  function LooseBytes(chunks: seq<Loose>): seq<byte> {
    if chunks == [] then [] else chunks[0].Bytes() + LooseBytes(chunks[1..])
  }

  function LoosePayload(chunks: seq<Loose>): seq<byte> {
    if chunks == [] then [] else chunks[0].data + LoosePayload(chunks[1..])
  }

  lemma RunLoose(c: Loose)
    requires c.Valid()
    ensures Run(AT_SIZE, c.Bytes()) == Decoded(AT_SIZE, c.data)
  {
    hide Run, SizeText, Numeral, Worth;
    var n := |c.data|;
    var atData := Decoder(Data(n), n, true, false, false);
    var atEnd := atData.(state := DataEnd(2));
    SizeLineIff(c.line);
    RunSplits(AT_SIZE, c.line + [NEWLINE], c.data);
    RunBulk(atData, c.data);
    assert [] + c.data == c.data;
    RunSplits(AT_SIZE, c.line + [NEWLINE] + c.data, c.end);
    assert c.end == [c.end[0]] + [c.end[1]];
    RunSplits(atEnd, [c.end[0]], [c.end[1]]);
    RunOne(atEnd, c.end[0]);
    RunOne(atEnd.(state := DataEnd(1)), c.end[1]);
    assert c.data + [] == c.data;
  }

  lemma {:induction false} RunLooseChunks(chunks: seq<Loose>, rest: seq<byte>)
    requires forall i :: 0 <= i < |chunks| ==> chunks[i].Valid()
    ensures var r := Run(AT_SIZE, rest);
      Run(AT_SIZE, LooseBytes(chunks) + rest) == Decoded(r.decoder, LoosePayload(chunks) + r.payload)
  {
    hide Run, Loose.Valid, Loose.Bytes;
    if chunks == [] {
      assert LooseBytes(chunks) + rest == rest;
      assert LoosePayload(chunks) + Run(AT_SIZE, rest).payload == Run(AT_SIZE, rest).payload;
    } else {
      RunLoose(chunks[0]);
      RunLooseChunks(chunks[1..], rest);
      assert LooseBytes(chunks) + rest == chunks[0].Bytes() + (LooseBytes(chunks[1..]) + rest);
      RunSplits(AT_SIZE, chunks[0].Bytes(), LooseBytes(chunks[1..]) + rest);
      var r := Run(AT_SIZE, rest);
      assert chunks[0].data + (LoosePayload(chunks[1..]) + r.payload) == LoosePayload(chunks) + r.payload;
    }
  }

  // ----- Any input -----

  /** What can be left over: a size line under way, one that ends or spoils the body, or a chunk under way. */
  datatype Rest =
    | OpenLine(line: seq<byte>)
    | EndLine(line: seq<byte>, trailers: seq<byte>)
    | OpenChunk(line: seq<byte>, data: seq<byte>, end: seq<byte>)
  {
    predicate Valid() {
      && NEWLINE !in line
      && match this
         case OpenLine(_) => true
         case EndLine(_, _) => !Sized(line) || Worth(SizeText(line)) == 0
         case OpenChunk(_, data, end) =>
           && Sized(line) && |data| <= Worth(SizeText(line)) && |end| < 2
           && (end != [] ==> |data| == Worth(SizeText(line))) && Worth(SizeText(line)) > 0
    }

    function Bytes(): seq<byte> {
      match this
      case OpenLine(_) => line
      case EndLine(_, trailers) => line + [NEWLINE] + trailers
      case OpenChunk(_, data, end) => line + [NEWLINE] + data + end
    }

    /** Whether it spoils the body: a size line that is refused, complete or already as far as it goes. */
    predicate Spoiled() {
      match this
      case OpenLine(_) => !Numeral(SizeText(line))
      case EndLine(_, _) => !Sized(line)
      case OpenChunk(_, _, _) => false
    }

    function Data(): seq<byte> {
      match this
      case OpenLine(_) => []
      case EndLine(_, _) => []
      case OpenChunk(_, data, _) => data
    }
  }

  lemma FirstNewline(data: seq<byte>) returns (line: seq<byte>, after: seq<byte>)
    requires NEWLINE in data
    ensures NEWLINE !in line && data == line + [NEWLINE] + after
    decreases |data|
  {
    if data[0] == NEWLINE {
      line, after := [], data[1..];
      assert data == [] + [NEWLINE] + data[1..];
    } else {
      assert data == [data[0]] + data[1..];
      var l, a := FirstNewline(data[1..]);
      line, after := [data[0]] + l, a;
      assert line + [NEWLINE] + after == [data[0]] + (l + [NEWLINE] + a);
    }
  }

  /** Every input is some chunks and one rest. */
  lemma {:induction false} EveryInputSplits(data: seq<byte>) returns (chunks: seq<Loose>, rest: Rest)
    ensures (forall i :: 0 <= i < |chunks| ==> chunks[i].Valid()) && rest.Valid()
    ensures data == LooseBytes(chunks) + rest.Bytes()
    decreases |data|
  {
    hide SizeText, Numeral, Worth, Rest.Valid, Loose.Valid, Rest.Bytes, Loose.Bytes, LooseBytes, Sized;
    chunks := [];
    NoChunks();
    if NEWLINE !in data {
      rest := OpenLine(data);
      RestIs(rest);
    } else {
      var line, after := FirstNewline(data);
      var n := Worth(SizeText(line));
      if !Sized(line) || n == 0 {
        rest := EndLine(line, after);
        RestIs(rest);
      } else if |after| < n + 2 {
        var cut := Min(n, |after|);
        rest := OpenChunk(line, after[..cut], after[cut..]);
        RestIs(rest);
        assert line + [NEWLINE] + after == line + [NEWLINE] + after[..cut] + after[cut..];
      } else {
        var c := Loose(line, after[..n], after[n..n + 2]);
        LooseIs(c);
        var more;
        more, rest := EveryInputSplits(after[n + 2..]);
        chunks := [c] + more;
        OneMoreChunk(c, more);
        assert line + [NEWLINE] + after == line + [NEWLINE] + after[..n] + after[n..n + 2] + after[n + 2..];
        assert c.Bytes() + (LooseBytes(more) + rest.Bytes()) == (c.Bytes() + LooseBytes(more)) + rest.Bytes();
      }
    }
  }

  lemma NoChunks()
    ensures forall b: seq<byte> :: LooseBytes([]) + b == b
  {
  }

  lemma OneMoreChunk(c: Loose, more: seq<Loose>)
    ensures LooseBytes([c] + more) == c.Bytes() + LooseBytes(more)
  {
    assert ([c] + more)[1..] == more;
  }

  lemma LooseIs(c: Loose)
    ensures c.Bytes() == c.line + [NEWLINE] + c.data + c.end
    ensures c.Valid() <==>
      NEWLINE !in c.line && Sized(c.line) && Worth(SizeText(c.line)) == |c.data| > 0 && |c.end| == 2
  {
  }

  lemma RestIs(r: Rest)
    requires NEWLINE !in r.line
    ensures r.OpenLine? ==> r.Valid() && r.Bytes() == r.line
    ensures r.EndLine? ==> r.Bytes() == r.line + [NEWLINE] + r.trailers
    ensures r.EndLine? ==> (r.Valid() <==> !Sized(r.line) || Worth(SizeText(r.line)) == 0)
    ensures r.OpenChunk? ==> r.Bytes() == r.line + [NEWLINE] + r.data + r.end
    ensures var n := Worth(SizeText(r.line));
      r.OpenChunk? && Sized(r.line) && n > 0 && |r.data| + |r.end| < n + 2 && |r.data| == Min(n, |r.data| + |r.end|) ==>
      r.Valid()
  {
  }

  lemma RunRest(rest: Rest)
    requires rest.Valid()
    ensures var r := Run(AT_SIZE, rest.Bytes());
      && r.payload == rest.Data()
      && (r.decoder.bad <==> rest.Spoiled())
      && (r.decoder.done <==> rest.Spoiled() || rest.EndLine?)
  {
    hide Run, SizeText, Numeral, Worth;
    var line := rest.line;
    match rest {
      case OpenLine(_) =>
        LineSoFar(line);
      case EndLine(_, trailers) =>
        SizeLineIff(line);
        RunSplits(AT_SIZE, line + [NEWLINE], trailers);
        RunStops(Run(AT_SIZE, line + [NEWLINE]).decoder, trailers);
      case OpenChunk(_, data, end) =>
        SizeLineIff(line);
        RunOpenChunk(line, data, end);
    }
  }

  lemma RunOpenChunk(line: seq<byte>, data: seq<byte>, end: seq<byte>)
    requires OpenChunk(line, data, end).Valid()
    ensures var r := Run(AT_SIZE, line + [NEWLINE] + data + end);
      r.payload == data && !r.decoder.bad && !r.decoder.done
  {
    hide Run, SizeText, Numeral, Worth;
    SizeLineIff(line);
    var n := Worth(SizeText(line));
    var atData := Decoder(Data(n), n, true, false, false);
    RunSplits(AT_SIZE, line + [NEWLINE], data);
    RunBulk(atData, data);
    assert [] + data == data;
    RunSplits(AT_SIZE, line + [NEWLINE] + data, end);
    var d := Run(AT_SIZE, line + [NEWLINE] + data).decoder;
    if end == [] {
      RunNothing(d);
    } else {
      assert end == [end[0]];
      RunOne(d, end[0]);
    }
    assert data + [] == data;
  }

  /**
   * Of any input the decoder hands on exactly the data of its chunks, the last one as far as it goes. It gives up
   * exactly when the rest is a line that is no size, and is finished exactly then or at a size of zero.
   */
  lemma AnyInputDecodes(chunks: seq<Loose>, rest: Rest)
    requires (forall i :: 0 <= i < |chunks| ==> chunks[i].Valid()) && rest.Valid()
    ensures var r := Run(INITIAL, LooseBytes(chunks) + rest.Bytes());
      && r.payload == LoosePayload(chunks) + rest.Data()
      && (r.decoder.bad <==> rest.Spoiled())
      && (r.decoder.done <==> rest.Spoiled() || rest.EndLine?)
  {
    hide Run, Loose.Valid, Rest.Valid, Rest.Spoiled;
    RunLooseChunks(chunks, rest.Bytes());
    RunRest(rest);
  }
}
