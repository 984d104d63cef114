/**
 * Incremental decoding of `Transfer-Encoding: chunked` (section 7.1 of RFC 9112).
 *
 * The decoder is specified one byte at a time; the program moves chunk data in bulk. The two are
 * proved equal, segmentation is proved irrelevant, and every well-formed encoding is proved to
 * decode to its payload.
 */
module Dechunking {
  import opened Base
  import opened FileHashing

  const NEWLINE: byte := 10
  const RETURN: byte := 13
  const SEMICOLON: byte := 59
  const MAX_CHUNK: nat := 0xFFFF_FFFF

  datatype ChunkState =
    | Size
    | Extension
    | Data(left: nat)
    | DataEnd(count: nat)

  datatype Decoder = Decoder(state: ChunkState, size: nat, seenDigit: bool, done: bool, bad: bool)
  {
    /** Chunk data and the line end after it always have something left to read. */
    predicate Valid() {
      (state.Data? ==> state.left > 0) && (state.DataEnd? ==> state.count > 0) && size <= MAX_CHUNK
    }
  }

  const INITIAL: Decoder := Decoder(Size, 0, false, false, false)

  /** A hexadecimal digit of either case. */
  function DigitValue(b: byte): (v: Option<nat>)
    ensures v.Some? ==> v.value < 16
  {
    if '0' as int <= b <= '9' as int then Some(b - '0' as int)
    else if 'a' as int <= b <= 'f' as int then Some(b - 'a' as int + 10)
    else if 'A' as int <= b <= 'F' as int then Some(b - 'A' as int + 10)
    else None
  }

  function Fail(d: Decoder): Decoder {
    d.(bad := true, done := true)
  }

  /** One byte of a chunk-size line or of its extension. */
  function SizeLineStep(d: Decoder, b: byte): Decoder
    requires d.state.Size? || d.state.Extension?
  {
    if b == NEWLINE then
      if !d.seenDigit then Fail(d)
      else if d.size == 0 then d.(done := true)
      else d.(state := Data(d.size))
    else if b == RETURN then d
    else if b == SEMICOLON then d.(state := Extension)
    else if d.state.Extension? then d
    else
      match DigitValue(b)
      case Some(v) =>
        if d.size * 16 + v <= MAX_CHUNK then d.(size := d.size * 16 + v, seenDigit := true) else Fail(d)
      case None => Fail(d)
  }

  /** The decoder after some bytes, and the payload they carried. */
  datatype Decoded = Decoded(decoder: Decoder, payload: seq<byte>)

  function Step(d: Decoder, b: byte): Decoded {
    match d.state
    case Size => Decoded(SizeLineStep(d, b), [])
    case Extension => Decoded(SizeLineStep(d, b), [])
    case Data(left) => Decoded(d.(state := if left <= 1 then DataEnd(2) else Data(left - 1)), [b])
    case DataEnd(count) =>
      if count <= 1 then Decoded(d.(state := Size, size := 0, seenDigit := false), [])
      else Decoded(d.(state := DataEnd(count - 1)), [])
  }

  /** Feeding a run of bytes; nothing is read once the decoder is done. */
  function Run(d: Decoder, data: seq<byte>): Decoded
    decreases |data|
  {
    if data == [] || d.done then
      Decoded(d, [])
    else
      var first := Step(d, data[0]);
      var rest := Run(first.decoder, data[1..]);
      Decoded(rest.decoder, first.payload + rest.payload)
  }

  lemma RunStops(d: Decoder, data: seq<byte>)
    requires d.done || data == []
    ensures Run(d, data) == Decoded(d, [])
  {
  }

  lemma {:induction false} RunKeepsValid(d: Decoder, data: seq<byte>)
    requires d.Valid()
    ensures Run(d, data).decoder.Valid()
    decreases |data|
  {
    if data != [] && !d.done {
      RunKeepsValid(Step(d, data[0]).decoder, data[1..]);
    }
  }

  /** Segmentation is irrelevant: feeding two pieces is feeding their concatenation. */
  lemma {:induction false} RunSplits(d: Decoder, a: seq<byte>, b: seq<byte>)
    ensures var first := Run(d, a);
      var second := Run(first.decoder, b);
      Run(d, a + b) == Decoded(second.decoder, first.payload + second.payload)
    decreases |a|
  {
    if a == [] {
      assert a + b == b;
    } else if !d.done {
      hide Step;
      var first := Step(d, a[0]);
      assert (a + b)[0] == a[0] && (a + b)[1..] == a[1..] + b;
      RunSplits(first.decoder, a[1..], b);
      var middle := Run(first.decoder, a[1..]);
      var last := Run(middle.decoder, b);
      assert first.payload + (middle.payload + last.payload) == (first.payload + middle.payload) + last.payload;
    }
  }

  lemma DoneStays(d: Decoder, a: seq<byte>, b: seq<byte>)
    ensures Run(d, a).decoder.done ==> Run(d, a + b).decoder.done
  {
    RunSplits(d, a, b);
    if Run(d, a).decoder.done {
      RunStops(Run(d, a).decoder, b);
    }
  }

  /** Chunk data moves in bulk, as the program moves it. */
  lemma {:induction false} RunBulk(d: Decoder, data: seq<byte>)
    requires d.state.Data? && d.state.left > 0 && !d.done && |data| <= d.state.left
    ensures Run(d, data).payload == data
    ensures Run(d, data).decoder ==
      if data == [] then d
      else d.(state := if |data| == d.state.left then DataEnd(2) else Data(d.state.left - |data|))
    decreases |data|
  {
    if data != [] {
      var next := Step(d, data[0]).decoder;
      if next.state.Data? {
        RunBulk(next, data[1..]);
      }
    }
  }

  // ----- Every well-formed encoding decodes to its payload -----

  function HexValue(digits: seq<byte>): nat {
    if digits == [] then 0
    else
      HexValue(digits[..|digits| - 1]) * 16 +
      match DigitValue(digits[|digits| - 1]) case Some(v) => v case None => 0
  }

  /** One chunk as sent: its size line, leading zeros and extension included, and its data. */
  datatype Chunk = Chunk(digits: seq<byte>, extension: seq<byte>, data: seq<byte>)
  {
    ghost predicate WellFormed() {
      && digits != []
      && (forall i :: 0 <= i < |digits| ==> DigitValue(digits[i]).Some?)
      && (extension == [] || extension[0] == SEMICOLON)
      && NEWLINE !in extension
      && HexValue(digits) == |data| <= MAX_CHUNK
    }

    function SizeLine(): seq<byte> {
      digits + extension + [RETURN, NEWLINE]
    }
  }

  /** The chunks in order, each followed by its line end. */
  function EncodeChunks(chunks: seq<Chunk>): seq<byte> {
    if chunks == [] then []
    else chunks[0].SizeLine() + chunks[0].data + [RETURN, NEWLINE] + EncodeChunks(chunks[1..])
  }

  function Payload(chunks: seq<Chunk>): seq<byte> {
    if chunks == [] then [] else chunks[0].data + Payload(chunks[1..])
  }

  /** A whole body: data chunks, the zero-sized last chunk, and trailers that are not looked at. */
  function EncodeBody(chunks: seq<Chunk>, last: Chunk, trailers: seq<byte>): seq<byte> {
    EncodeChunks(chunks) + last.SizeLine() + trailers
  }

  lemma {:induction false} RunDigits(d: Decoder, digits: seq<byte>)
    requires d.state.Size? && !d.done && d.size == 0 && !d.seenDigit
    requires forall i :: 0 <= i < |digits| ==> DigitValue(digits[i]).Some?
    requires HexValue(digits) <= MAX_CHUNK
    ensures Run(d, digits) == Decoded(d.(size := HexValue(digits), seenDigit := digits != []), [])
    decreases |digits|
  {
    if digits != [] {
      var front, last := digits[..|digits| - 1], digits[|digits| - 1];
      assert digits == front + [last];
      RunDigits(d, front);
      RunSplits(d, front, [last]);
      RunOne(d.(size := HexValue(front), seenDigit := front != []), last);
    }
  }

  lemma RunNothing(d: Decoder)
    ensures Run(d, []) == Decoded(d, [])
  {
  }

  lemma RunOne(d: Decoder, b: byte)
    requires !d.done
    ensures Run(d, [b]) == Step(d, b)
  {
    assert [b][1..] == [];
    assert Run(Step(d, b).decoder, []) == Decoded(Step(d, b).decoder, []);
    assert Step(d, b).payload + [] == Step(d, b).payload;
  }

  lemma {:induction false} RunExtension(d: Decoder, text: seq<byte>)
    requires d.state.Extension? && !d.done && NEWLINE !in text
    ensures Run(d, text) == Decoded(d, [])
    decreases |text|
  {
    if text != [] {
      RunExtension(d, text[1..]);
    }
  }

  /** A size line leaves the decoder at the chunk's data, or done when the size is zero. */
  lemma RunSizeLine(d: Decoder, c: Chunk)
    requires d.state.Size? && !d.done && d.size == 0 && !d.seenDigit && c.WellFormed()
    ensures var n := |c.data|;
      var r := Run(d, c.SizeLine());
      && r.payload == []
      && r.decoder.bad == d.bad
      && r.decoder.size == n && r.decoder.seenDigit
      && (if n == 0 then r.decoder.done else r.decoder == Decoder(Data(n), n, true, false, d.bad))
    ensures !Run(d, c.digits + c.extension + [RETURN]).decoder.done
  {
    hide Run;
    var sized := d.(size := |c.data|, seenDigit := true);
    RunNothing(sized);
    RunDigits(d, c.digits);
    RunSplits(d, c.digits, c.extension);
    var after := if c.extension == [] then sized else sized.(state := Extension);
    if c.extension != [] {
      assert c.extension == [SEMICOLON] + c.extension[1..];
      RunSplits(sized, [SEMICOLON], c.extension[1..]);
      RunOne(sized, SEMICOLON);
      RunExtension(after, c.extension[1..]);
    }
    assert Run(d, c.digits + c.extension) == Decoded(after, []);
    RunSplits(d, c.digits + c.extension, [RETURN]);
    RunSplits(d, c.digits + c.extension, [RETURN, NEWLINE]);
    RunSplits(after, [RETURN], [NEWLINE]);
    assert [RETURN, NEWLINE] == [RETURN] + [NEWLINE];
    RunOne(after, RETURN);
    RunOne(after, NEWLINE);
    hide Run, HexValue;
  }

  /** One chunk, from its size line to the line end after its data. */
  lemma RunChunk(c: Chunk)
    requires c.WellFormed() && c.data != []
    ensures Run(INITIAL, c.SizeLine() + c.data + [RETURN, NEWLINE]) == Decoded(INITIAL, c.data)
  {
    hide Run, Chunk.SizeLine;
    var atData := Decoder(Data(|c.data|), |c.data|, true, false, false);
    var atEnd := atData.(state := DataEnd(2));
    RunSizeLine(INITIAL, c);
    RunSplits(INITIAL, c.SizeLine(), c.data);
    RunBulk(atData, c.data);
    assert [] + c.data == c.data;
    RunSplits(INITIAL, c.SizeLine() + c.data, [RETURN, NEWLINE]);
    RunSplits(atEnd, [RETURN], [NEWLINE]);
    assert [RETURN, NEWLINE] == [RETURN] + [NEWLINE];
    RunOne(atEnd, RETURN);
    RunOne(atEnd.(state := DataEnd(1)), NEWLINE);
    assert c.data + [] == c.data;
  }

  lemma {:induction false} RunChunks(chunks: seq<Chunk>)
    requires forall i :: 0 <= i < |chunks| ==> chunks[i].WellFormed() && chunks[i].data != []
    ensures Run(INITIAL, EncodeChunks(chunks)) == Decoded(INITIAL, Payload(chunks))
  {
    if chunks != [] {
      RunChunk(chunks[0]);
      RunChunks(chunks[1..]);
      RunSplits(INITIAL, chunks[0].SizeLine() + chunks[0].data + [RETURN, NEWLINE], EncodeChunks(chunks[1..]));
    }
  }

  /** Every list of non-empty chunks, however its size lines are spelled, decodes to its payload. */
  lemma EncodedBodyDecodes(chunks: seq<Chunk>, last: Chunk, trailers: seq<byte>)
    requires forall i :: 0 <= i < |chunks| ==> chunks[i].WellFormed() && chunks[i].data != []
    requires last.WellFormed() && last.data == []
    ensures var r := Run(INITIAL, EncodeBody(chunks, last, trailers));
      r.payload == Payload(chunks) && r.decoder.done && !r.decoder.bad
  {
    var wire := EncodeChunks(chunks);
    RunChunks(chunks);
    RunSizeLine(INITIAL, last);
    RunSplits(INITIAL, wire, last.SizeLine());
    var r := Run(INITIAL, wire + last.SizeLine());
    assert r.payload == Payload(chunks);
    RunSplits(INITIAL, wire + last.SizeLine(), trailers);
    RunStops(r.decoder, trailers);
    assert r.payload + [] == r.payload;
  }

  /** The decoder is not done before the last byte of the body has been read. */
  lemma EncodedBodyNotDoneEarly(chunks: seq<Chunk>, last: Chunk, early: seq<byte>)
    requires forall i :: 0 <= i < |chunks| ==> chunks[i].WellFormed() && chunks[i].data != []
    requires last.WellFormed() && last.data == []
    requires early < EncodeBody(chunks, last, [])
    ensures !Run(INITIAL, early).decoder.done
  {
    var wire := EncodeChunks(chunks);
    var allButOne := wire + (last.digits + last.extension + [RETURN]);
    assert EncodeBody(chunks, last, []) == allButOne + [NEWLINE];
    RunChunks(chunks);
    RunSizeLine(INITIAL, last);
    RunSplits(INITIAL, wire, last.digits + last.extension + [RETURN]);
    assert !Run(INITIAL, allButOne).decoder.done;
    assert allButOne == early + allButOne[|early|..];
    DoneStays(INITIAL, early, allButOne[|early|..]);
  }

  // ----- The decoder as the program runs it -----

  class Dechunker {
    var state: ChunkState
    var size: nat
    var seenDigit: bool
    var done: bool
    var bad: bool

    ghost function View(): Decoder
      reads this
    {
      Decoder(state, size, seenDigit, done, bad)
    }

    constructor ()
      ensures View() == INITIAL
    {
      state, size, seenDigit, done, bad := Size, 0, false, false, false;
    }

    method SetFailed()
      modifies this
      ensures View() == Fail(old(View()))
    {
      bad := true;
      done := true;
    }

    method ReadSizeLine(b: byte)
      requires View().Valid() && (state.Size? || state.Extension?)
      modifies this
      ensures View() == SizeLineStep(old(View()), b)
    {
      if b == NEWLINE {
        if !seenDigit {
          SetFailed();
        } else if size == 0 {
          done := true;
        } else {
          state := Data(size);
        }
      } else if b == RETURN {
      } else if b == SEMICOLON {
        state := Extension;
      } else if state.Extension? {
      } else {
        match DigitValue(b)
        case Some(v) =>
          if size * 16 + v <= MAX_CHUNK {
            size := size * 16 + v;
            seenDigit := true;
          } else {
            SetFailed();
          }
        case None =>
          SetFailed();
      }
    }

    /** Reads one byte outside chunk data. */
    method ReadByte(b: byte)
      requires View().Valid() && !state.Data?
      modifies this
      ensures View().Valid() && View() == Step(old(View()), b).decoder
    {
      if state.DataEnd? {
        var k := state.count;
        if k <= 1 {
          state := Size;
          size := 0;
          seenDigit := false;
        } else {
          state := DataEnd(k - 1);
        }
      } else {
        ReadSizeLine(b);
      }
    }

    /** Reads the next piece of `data`: a run of chunk data in bulk, anything else a byte. */
    method Advance(data: seq<byte>, i: nat, sink: FileHasher) returns (next: nat)
      requires View().Valid() && sink.Valid() && !done && i < |data|
      modifies this, sink, sink.head
      ensures View().Valid() && sink.Valid()
      ensures i < next <= |data|
      ensures var r := Run(old(View()), data[i..next]);
        View() == r.decoder && sink.input == old(sink.input) + r.payload
    {
      if state.Data? {
        var n := state.left;
        var take := Min(n, |data| - i);
        next := i + take;
        RunBulk(View(), data[i..next]);
        sink.Update(data[i..next]);
        state := if n - take == 0 then DataEnd(2) else Data(n - take);
      } else {
        next := i + 1;
        assert data[i..next] == [data[i]];
        RunOne(View(), data[i]);
        assert sink.input + [] == sink.input;
        ReadByte(data[i]);
      }
    }

    /** Reads `data`, handing the payload in it to `sink`, a run of chunk data at a time. */
    method Feed(data: seq<byte>, sink: FileHasher)
      requires View().Valid() && sink.Valid()
      modifies this, sink, sink.head
      ensures View().Valid() && sink.Valid()
      ensures var r := Run(old(View()), data);
        View() == r.decoder && sink.input == old(sink.input) + r.payload
    {
      hide Run, Step;
      ghost var start, before := View(), sink.input;
      var i := 0;
      RunStops(start, data[..0]);
      assert before + [] == before;
      while i < |data| && !done
        invariant 0 <= i <= |data|
        invariant View().Valid() && sink.Valid()
        invariant Run(start, data[..i]).decoder == View()
        invariant sink.input == before + Run(start, data[..i]).payload
        decreases |data| - i
      {
        ghost var j := i;
        i := Advance(data, i, sink);
        RunSplits(start, data[..j], data[j..i]);
        assert data[..j] + data[j..i] == data[..i];
      }
      assert data[..i] + data[i..] == data;
      RunSplits(start, data[..i], data[i..]);
      RunStops(View(), data[i..]);
      assert Run(start, data).payload == Run(start, data[..i]).payload + [];
    }
  }
}
