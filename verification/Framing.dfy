/**
 * The message cursors over a reassembled stream (src/engine.rs, `new_lines`, `new_smb2_messages`,
 * `new_modbus_messages`, `new_dnp3_frames`) and the DNP3 link layer (`parse_dnp3_message`).
 */
module Framing {
  import opened Base

  datatype Protocol = Lines | Smb2 | Modbus | Dnp3

  /** What the bytes at the cursor are: too few to tell, not this protocol, or a message of this wire size. */
  datatype Verdict = Wait | Stop | Frame(size: nat, message: seq<byte>)

  const LF: byte := 0x0a
  const CR: byte := 0x0d

  // -------------------------------------------------------- one message

  /** Index of the first line feed, or the length. */
  function FirstLf(s: seq<byte>): (i: nat)
    ensures i <= |s|
    ensures i < |s| ==> s[i] == LF
    ensures LF !in s[..i]
  {
    if s == [] || s[0] == LF then 0 else 1 + FirstLf(s[1..])
  }

  /** A line without its terminator. */
  function Chomped(line: seq<byte>): seq<byte> {
    if line != [] && line[|line| - 1] == CR then line[..|line| - 1] else line
  }

  function BigEndian24(a: byte, b: byte, c: byte): (n: nat)
    ensures n < 0x100_0000
  {
    a * 0x1_0000 + b * 0x100 + c
  }

  /** Check bytes of a DNP3 frame: two for each block of up to sixteen. */
  function CheckBytes(n: nat): nat {
    (n + 15) / 16 * 2
  }

  function Classify(p: Protocol, s: seq<byte>): (v: Verdict)
    ensures v.Frame? ==> 0 < v.size <= |s|
  {
    match p
    case Lines =>
      var i := FirstLf(s);
      if i == |s| then Wait else Frame(i + 1, Chomped(s[..i]))
    case Smb2 =>
      if |s| < 4 then Wait
      else
        var total := 4 + BigEndian24(s[1], s[2], s[3]);
        if |s| < total then Wait else Frame(total, s[4..total])
    case Modbus =>
      if |s| < 7 then Wait
      else if BigEndian16(s[2], s[3]) != 0 || BigEndian16(s[4], s[5]) == 0 then Stop
      else
        var total := 6 + BigEndian16(s[4], s[5]);
        if |s| < total then Wait else Frame(total, s[7..total])
    case Dnp3 =>
      if |s| < 10 then Wait
      else if s[0] != 0x05 || s[1] != 0x64 || s[2] < 5 then Stop
      else
        var total := 10 + (s[2] - 5) + CheckBytes(s[2] - 5);
        if |s| < total then Wait else Frame(total, s[..total])
  }

  lemma {:induction false} FirstLfExtends(s: seq<byte>, more: seq<byte>)
    requires LF in s
    ensures FirstLf(s + more) == FirstLf(s) < |s|
  {
    if s[0] != LF {
      assert (s + more)[1..] == s[1..] + more;
      FirstLfExtends(s[1..], more);
    }
  }

  /** A verdict once reached is not changed by more bytes. */
  lemma VerdictsLast(p: Protocol, s: seq<byte>, more: seq<byte>)
    requires !Classify(p, s).Wait?
    ensures Classify(p, s + more) == Classify(p, s)
  {
    var t := s + more;
    if p == Lines {
      FirstLfExtends(s, more);
      assert t[..FirstLf(s)] == s[..FirstLf(s)];
    } else if Classify(p, s).Frame? {
      assert t[..Classify(p, s).size] == s[..Classify(p, s).size];
    }
  }

  // ------------------------------------------------------- all the messages

  /** The messages found, the bytes they took, and whether the stream turned out not to be this protocol. */
  datatype Found = Found(messages: seq<seq<byte>>, used: nat, stopped: bool)

  function Extract(p: Protocol, s: seq<byte>): (f: Found)
    ensures f.used <= |s|
    decreases |s|
  {
    match Classify(p, s)
    case Wait => Found([], 0, false)
    case Stop => Found([], 0, true)
    case Frame(size, message) =>
      var rest := Extract(p, s[size..]);
      Found([message] + rest.messages, size + rest.used, rest.stopped)
  }

  /** What a second look adds to a first. */
  function Then(f: Found, g: Found): Found {
    Found(f.messages + g.messages, f.used + g.used, g.stopped)
  }

  /** Looking at a stream as it grows: the rest is found from where the first look left off. */
  lemma {:induction false} ExtractGrows(p: Protocol, s: seq<byte>, more: seq<byte>)
    ensures var f := Extract(p, s);
            Extract(p, s + more) == if f.stopped then f else Then(f, Extract(p, (s + more)[f.used..]))
    decreases |s|
  {
    hide Classify, Extract;
    ExtractUnfolds(p, s);
    if !Classify(p, s).Wait? {
      VerdictsLast(p, s, more);
      ExtractUnfolds(p, s + more);
    }
    match Classify(p, s)
    case Wait =>
      assert (s + more)[0..] == s + more;
      assert [] + Extract(p, s + more).messages == Extract(p, s + more).messages;
    case Stop =>
    case Frame(size, message) =>
      assert (s + more)[size..] == s[size..] + more;
      ExtractGrows(p, s[size..], more);
      var rest := Extract(p, s[size..]);
      assert (s + more)[size..][rest.used..] == (s + more)[size + rest.used..];
      FoundAfter(message, size, rest, Extract(p, (s + more)[size + rest.used..]));
  }

  lemma ExtractUnfolds(p: Protocol, s: seq<byte>)
    ensures var v := Classify(p, s);
            if v.Frame? then
              var rest := Extract(p, s[v.size..]);
              Extract(p, s) == Found([v.message] + rest.messages, v.size + rest.used, rest.stopped)
            else Extract(p, s) == Found([], 0, v.Stop?)
  {
    hide Classify;
  }

  lemma FoundAfter(message: seq<byte>, size: nat, f: Found, g: Found)
    ensures Then(Found([message] + f.messages, size + f.used, f.stopped), g)
         == Found([message] + Then(f, g).messages, size + Then(f, g).used, Then(f, g).stopped)
  {
    assert [message] + (f.messages + g.messages) == ([message] + f.messages) + g.messages;
  }

  // --------------------------------------------------------------- the cursor

  datatype Cursor = Cursor(pos: nat, stopped: bool)

  const START: Cursor := Cursor(0, false)

  /** What one call finds, and where it leaves the cursor. */
  datatype Polled = Polled(messages: seq<seq<byte>>, cursor: Cursor)

  function Poll(p: Protocol, buffer: seq<byte>, c: Cursor): (r: Polled)
    requires c.pos <= |buffer|
    ensures r.cursor.pos <= |buffer|
  {
    if c.stopped then Polled([], c)
    else
      var f := Extract(p, buffer[c.pos..]);
      Polled(f.messages, Cursor(c.pos + f.used, f.stopped))
  }

  function Joined(pieces: seq<seq<byte>>): seq<byte> {
    if pieces == [] then [] else Joined(pieces[..|pieces| - 1]) + pieces[|pieces| - 1]
  }

  /** A buffer that grows piece by piece, polled after each. */
  function PollAll(p: Protocol, pieces: seq<seq<byte>>): (r: Polled)
    ensures r.cursor.pos <= |Joined(pieces)|
  {
    if pieces == [] then Polled([], START)
    else
      var before := PollAll(p, pieces[..|pieces| - 1]);
      var now := Poll(p, Joined(pieces), before.cursor);
      Polled(before.messages + now.messages, now.cursor)
  }

  /** However the stream is cut and whenever it is polled, the messages are those of one look at the whole. */
  lemma {:induction false} CutsAreInvisible(p: Protocol, pieces: seq<seq<byte>>)
    ensures var f := Extract(p, Joined(pieces));
            PollAll(p, pieces) == Polled(f.messages, Cursor(f.used, f.stopped))
  {
    hide Classify, Extract;
    if pieces == [] {
      NothingIsFound(p);
    } else {
      var front := pieces[..|pieces| - 1];
      CutsAreInvisible(p, front);
      ExtractGrows(p, Joined(front), pieces[|pieces| - 1]);
    }
  }

  // ---------------------------------------------------------------- round trips

  /** A message on the wire: what a sender of this protocol puts before and after it. */
  ghost predicate OnWire(p: Protocol, message: seq<byte>, wire: seq<byte>) {
    match p
    case Lines =>
      && LF !in message
      && ((wire == message + [CR, LF]) || (wire == message + [LF] && Chomped(message) == message))
    case Smb2 =>
      |wire| == 4 + |message| && wire[4..] == message && BigEndian24(wire[1], wire[2], wire[3]) == |message|
    case Modbus =>
      && |wire| == 7 + |message| && wire[7..] == message
      && BigEndian16(wire[2], wire[3]) == 0 && BigEndian16(wire[4], wire[5]) == |message| + 1
    case Dnp3 =>
      message == wire && exists data :: LinkFrame(wire, data)
  }

  /** User data with two check bytes, whatever they are, after each sixteen and after the last. */
  predicate Blocked(wire: seq<byte>, data: seq<byte>)
    decreases |data|
  {
    if data == [] then wire == []
    else
      var n := Min(16, |data|);
      |wire| >= n + 2 && wire[..n] == data[..n] && Blocked(wire[n + 2..], data[n..])
  }

  /** A DNP3 link frame: sync, a length that counts five header bytes, the rest of the header, and the blocks. */
  predicate LinkFrame(wire: seq<byte>, data: seq<byte>) {
    && |data| <= 250 && |wire| >= 10
    && wire[0] == 0x05 && wire[1] == 0x64 && wire[2] == 5 + |data|
    && Blocked(wire[10..], data)
  }

  lemma {:induction false} BlockedLength(wire: seq<byte>, data: seq<byte>)
    requires Blocked(wire, data)
    ensures |wire| == |data| + CheckBytes(|data|)
    decreases |data|
  {
    if data != [] {
      var n := Min(16, |data|);
      BlockedLength(wire[n + 2..], data[n..]);
    }
  }

  lemma {:induction false} LfAtEnd(line: seq<byte>, rest: seq<byte>)
    requires LF !in line
    ensures FirstLf(line + [LF] + rest) == |line|
  {
    var s := line + [LF] + rest;
    if line != [] {
      assert s[1..] == line[1..] + [LF] + rest;
      LfAtEnd(line[1..], rest);
    }
  }

  lemma LineIsRecognised(line: seq<byte>, rest: seq<byte>)
    requires LF !in line
    ensures Classify(Lines, line + [LF] + rest) == Frame(|line| + 1, Chomped(line))
  {
    LfAtEnd(line, rest);
    assert (line + [LF] + rest)[..|line|] == line;
  }

  lemma LinkFrameIsRecognised(wire: seq<byte>, data: seq<byte>, rest: seq<byte>)
    requires LinkFrame(wire, data)
    ensures Classify(Dnp3, wire + rest) == Frame(|wire|, wire)
  {
    BlockedLength(wire[10..], data);
    assert (wire + rest)[..|wire|] == wire;
  }

  lemma Smb2IsRecognised(message: seq<byte>, wire: seq<byte>, rest: seq<byte>)
    requires OnWire(Smb2, message, wire)
    ensures Classify(Smb2, wire + rest) == Frame(|wire|, message)
  {
    hide BigEndian24;
    assert (wire + rest)[4..|wire|] == message;
  }

  lemma ModbusIsRecognised(message: seq<byte>, wire: seq<byte>, rest: seq<byte>)
    requires OnWire(Modbus, message, wire)
    ensures Classify(Modbus, wire + rest) == Frame(|wire|, message)
  {
    hide BigEndian16;
    assert (wire + rest)[7..|wire|] == message;
  }

  /** A message on the wire is recognised as that message, whatever follows. */
  lemma WireIsRecognised(p: Protocol, message: seq<byte>, wire: seq<byte>, rest: seq<byte>)
    requires OnWire(p, message, wire)
    ensures Classify(p, wire + rest) == Frame(|wire|, message)
  {
    hide Classify, LinkFrame;
    match p
    case Lines =>
      var line := wire[..|wire| - 1];
      LineIsRecognised(line, rest);
      assert wire == line + [LF] && Chomped(line) == message;
    case Smb2 =>
      Smb2IsRecognised(message, wire, rest);
    case Modbus =>
      ModbusIsRecognised(message, wire, rest);
    case Dnp3 =>
      var data :| LinkFrame(wire, data);
      LinkFrameIsRecognised(wire, data, rest);
  }

  /** Messages sent one after another. */
  ghost predicate Sent(p: Protocol, messages: seq<seq<byte>>, wires: seq<seq<byte>>) {
    |messages| == |wires| && forall i :: 0 <= i < |wires| ==> OnWire(p, messages[i], wires[i])
  }

  lemma {:induction false} JoinedFirst(wires: seq<seq<byte>>)
    requires wires != []
    ensures Joined(wires) == wires[0] + Joined(wires[1..])
    decreases |wires|
  {
    var n := |wires|;
    if n == 1 {
      assert wires[..0] == [] && wires[1..] == [];
    } else {
      var front, last := wires[..n - 1], wires[n - 1];
      JoinedFirst(front);
      assert wires[1..][..n - 2] == front[1..] && wires[1..][n - 2] == last;
      assert (wires[0] + Joined(front[1..])) + last == wires[0] + (Joined(front[1..]) + last);
    }
  }

  lemma SentFirst(p: Protocol, messages: seq<seq<byte>>, wires: seq<seq<byte>>)
    requires Sent(p, messages, wires) && wires != []
    ensures messages != [] && OnWire(p, messages[0], wires[0]) && Sent(p, messages[1..], wires[1..])
  {
    hide OnWire;
  }

  lemma NothingIsFound(p: Protocol)
    ensures Extract(p, []) == Found([], 0, false)
  {
    assert FirstLf([]) == 0;
  }

  lemma {:induction false} SentIsFound(p: Protocol, messages: seq<seq<byte>>, wires: seq<seq<byte>>)
    requires Sent(p, messages, wires)
    ensures Extract(p, Joined(wires)) == Found(messages, |Joined(wires)|, false)
    decreases |wires|
  {
    if wires == [] {
      hide OnWire, Extract;
      NothingIsFound(p);
    } else {
      hide Classify, OnWire, Sent, Joined, Extract;
      SentFirst(p, messages, wires);
      JoinedFirst(wires);
      WireIsRecognised(p, messages[0], wires[0], Joined(wires[1..]));
      SentIsFound(p, messages[1..], wires[1..]);
      FoundFirst(p, messages[0], wires[0], Joined(wires[1..]));
      assert [messages[0]] + messages[1..] == messages;
    }
  }

  lemma FoundFirst(p: Protocol, message: seq<byte>, wire: seq<byte>, rest: seq<byte>)
    requires Classify(p, wire + rest) == Frame(|wire|, message)
    ensures var f := Extract(p, rest);
      Extract(p, wire + rest) == Found([message] + f.messages, |wire| + f.used, f.stopped)
  {
    hide Classify;
    assert (wire + rest)[|wire|..] == rest;
  }

  /** What a peer sends is what the cursor returns, however TCP cuts it and whenever the cursor looks. */
  lemma SentIsReceived(p: Protocol, messages: seq<seq<byte>>, wires: seq<seq<byte>>, pieces: seq<seq<byte>>)
    requires Sent(p, messages, wires) && Joined(pieces) == Joined(wires)
    ensures PollAll(p, pieces) == Polled(messages, Cursor(|Joined(pieces)|, false))
  {
    SentIsFound(p, messages, wires);
    CutsAreInvisible(p, pieces);
  }

  // ---------------------------------------------------------------------- DNP3

  /** The user data of a frame, or nothing when a block runs past its end. */
  function Deblock(wire: seq<byte>, remaining: nat): Option<seq<byte>>
    decreases remaining
  {
    if remaining == 0 then Some([])
    else
      var n := Min(remaining, 16);
      if |wire| < n then None
      else
        match Deblock(if |wire| < n + 2 then [] else wire[n + 2..], remaining - n)
        case None => None
        case Some(rest) => Some(wire[..n] + rest)
  }

  function UserData(msg: seq<byte>): Option<seq<byte>> {
    if |msg| < 10 || msg[0] != 0x05 || msg[1] != 0x64 || msg[2] < 5 then None
    else Deblock(msg[10..], msg[2] - 5)
  }

  /** The application-layer function code: the third byte of the user data. */
  function FunctionCode(msg: seq<byte>): Option<byte> {
    match UserData(msg)
    case None => None
    case Some(data) => if |data| > 2 then Some(data[2]) else None
  }

  const DNP3_FUNCTIONS: seq<(byte, string)> := [
    (0x00, "CONFIRM"),
    (0x01, "READ"),
    (0x02, "WRITE"),
    (0x03, "SELECT"),
    (0x04, "OPERATE"),
    (0x05, "DIRECT_OPERATE"),
    (0x06, "DIRECT_OPERATE_NR"),
    (0x0D, "COLD_RESTART"),
    (0x0E, "WARM_RESTART"),
    (0x14, "ENABLE_UNSOLICITED"),
    (0x15, "DISABLE_UNSOLICITED"),
    (0x81, "RESPONSE"),
    (0x82, "UNSOLICITED_RESPONSE")
  ]

  /** The name reported for a function code: the table's, or `UNKNOWN` for a code outside it. */
  predicate IsNamed(code: byte, name: string) {
    || (code, name) in DNP3_FUNCTIONS
    || (name == "UNKNOWN" && forall i :: 0 <= i < |DNP3_FUNCTIONS| ==> DNP3_FUNCTIONS[i].0 != code)
  }

  lemma CodesAscend(i: nat, j: nat)
    requires i < j < |DNP3_FUNCTIONS|
    ensures DNP3_FUNCTIONS[i].0 < DNP3_FUNCTIONS[j].0
  {
  }

  /** Every code has exactly one name. */
  lemma NamesAreUnique(code: byte, name: string, other: string)
    requires IsNamed(code, name) && IsNamed(code, other)
    ensures name == other
  {
    if (code, name) in DNP3_FUNCTIONS && (code, other) in DNP3_FUNCTIONS {
      var i :| 0 <= i < |DNP3_FUNCTIONS| && DNP3_FUNCTIONS[i] == (code, name);
      var j :| 0 <= j < |DNP3_FUNCTIONS| && DNP3_FUNCTIONS[j] == (code, other);
      if i < j {
        CodesAscend(i, j);
      } else if j < i {
        CodesAscend(j, i);
      }
    }
  }

  lemma {:induction false} DeblockBlocked(wire: seq<byte>, data: seq<byte>)
    requires Blocked(wire, data)
    ensures Deblock(wire, |data|) == Some(data)
    decreases |data|
  {
    if data != [] {
      var n := Min(16, |data|);
      DeblockBlocked(wire[n + 2..], data[n..]);
      assert data[..n] + data[n..] == data;
    }
  }

  /** The user data put into a frame is recovered from it exactly, whatever the check bytes. */
  lemma UserDataSurvives(wire: seq<byte>, data: seq<byte>)
    requires LinkFrame(wire, data)
    ensures UserData(wire) == Some(data)
  {
    DeblockBlocked(wire[10..], data);
  }

  lemma {:induction false} EnoughBlocks(wire: seq<byte>, n: nat)
    requires |wire| == n + CheckBytes(n)
    ensures Deblock(wire, n).Some? && |Deblock(wire, n).value| == n && Blocked(wire, Deblock(wire, n).value)
    decreases n
  {
    if n > 0 {
      var k := Min(n, 16);
      assert CheckBytes(n - k) == CheckBytes(n) - 2;
      EnoughBlocks(wire[k + 2..], n - k);
      var rest := Deblock(wire[k + 2..], n - k).value;
      var data := wire[..k] + rest;
      assert data[..k] == wire[..k] && data[k..] == rest;
    }
  }

  /** Conversely every frame the cursor returns is a link frame, and its user data can always be read. */
  lemma FramesAreReadable(s: seq<byte>)
    requires Classify(Dnp3, s).Frame?
    ensures var frame := Classify(Dnp3, s).message;
            UserData(frame).Some? && LinkFrame(frame, UserData(frame).value)
  {
    var frame := Classify(Dnp3, s).message;
    EnoughBlocks(frame[10..], s[2] - 5);
  }

  // -------------------------------------------------------------------- the class

  /** Looking from `from`, a scan has found `out` and stands at `pos`. */
  ghost predicate Scanned(p: Protocol, s: seq<byte>, from: nat, out: seq<seq<byte>>, pos: nat) {
    && from <= pos <= |s|
    && Extract(p, s[from..]) == Then(Found(out, pos - from, false), Extract(p, s[pos..]))
  }

  lemma ScanStarts(p: Protocol, s: seq<byte>, from: nat)
    requires from <= |s|
    ensures Scanned(p, s, from, [], from)
  {
    hide Extract, Classify;
    assert [] + Extract(p, s[from..]).messages == Extract(p, s[from..]).messages;
  }

  lemma ScanSteps(p: Protocol, s: seq<byte>, from: nat, out: seq<seq<byte>>, pos: nat, size: nat, message: seq<byte>)
    requires Scanned(p, s, from, out, pos) && Classify(p, s[pos..]) == Frame(size, message)
    ensures Scanned(p, s, from, out + [message], pos + size)
  {
    hide Classify;
    assert s[pos..][size..] == s[pos + size..];
    var rest := Extract(p, s[pos + size..]);
    assert out + ([message] + rest.messages) == (out + [message]) + rest.messages;
  }

  lemma ScanEnds(p: Protocol, s: seq<byte>, c: Cursor, out: seq<seq<byte>>, pos: nat)
    requires !c.stopped && Scanned(p, s, c.pos, out, pos) && !Classify(p, s[pos..]).Frame?
    ensures Poll(p, s, c) == Polled(out, Cursor(pos, Classify(p, s[pos..]).Stop?))
  {
    hide Classify;
  }

  /** The part of a stream half that the cursors use. */
  class FramedBuffer {
    var buffer: seq<byte>
    var lineScanPos: nat
    var smb2ScanPos: nat
    var modbusScanPos: nat
    var modbusAbandoned: bool
    var dnp3ScanPos: nat
    var dnp3Abandoned: bool

    predicate Valid()
      reads this
    {
      lineScanPos <= |buffer| && smb2ScanPos <= |buffer| && modbusScanPos <= |buffer| && dnp3ScanPos <= |buffer|
    }

    function At(p: Protocol): Cursor
      reads this
    {
      match p
      case Lines => Cursor(lineScanPos, false)
      case Smb2 => Cursor(smb2ScanPos, false)
      case Modbus => Cursor(modbusScanPos, modbusAbandoned)
      case Dnp3 => Cursor(dnp3ScanPos, dnp3Abandoned)
    }

    constructor ()
      ensures Valid() && buffer == [] && forall p :: At(p) == START
    {
      buffer, lineScanPos, smb2ScanPos, modbusScanPos, dnp3ScanPos := [], 0, 0, 0, 0;
      modbusAbandoned, dnp3Abandoned := false, false;
    }

    method Extend(data: seq<byte>)
      requires Valid()
      modifies this`buffer
      ensures Valid() && buffer == old(buffer) + data
    {
      buffer := buffer + data;
    }

    method NewLines() returns (lines: seq<seq<byte>>)
      requires Valid()
      modifies this`lineScanPos
      ensures Valid() && Polled(lines, At(Lines)) == Poll(Lines, buffer, old(At(Lines)))
    {
      hide Scanned, Poll, Classify, Extract, Chomped;
      lines := [];
      ghost var from := lineScanPos;
      var slice := buffer[lineScanPos..];
      var start, i := 0, 0;
      ScanStarts(Lines, buffer, from);
      while i < |slice|
        invariant lineScanPos == from && 0 <= start <= i <= |slice|
        invariant LF !in slice[start..i]
        invariant Scanned(Lines, buffer, from, lines, from + start)
      {
        if slice[i] == LF {
          var end := i;
          if end > start && slice[end - 1] == CR {
            end := end - 1;
          }
          LineAt(buffer, from, start, i);
          ChompedEnd(slice, start, i);
          ScanSteps(Lines, buffer, from, lines, from + start, i + 1 - start, slice[start..end]);
          lines := lines + [slice[start..end]];
          start := i + 1;
        } else {
          StillNoLf(slice, start, i);
        }
        i := i + 1;
      }
      NoLineAt(buffer, from, start);
      ScanEnds(Lines, buffer, Cursor(from, false), lines, from + start);
      lineScanPos := lineScanPos + start;
    }

    method NewSmb2Messages() returns (out: seq<seq<byte>>)
      requires Valid()
      modifies this`smb2ScanPos
      ensures Valid() && Polled(out, At(Smb2)) == Poll(Smb2, buffer, old(At(Smb2)))
    {
      hide Scanned, Poll, Classify, Extract;
      out := [];
      ghost var from := smb2ScanPos;
      ScanStarts(Smb2, buffer, from);
      while true
        invariant smb2ScanPos <= |buffer| && Scanned(Smb2, buffer, from, out, smb2ScanPos)
        decreases |buffer| - smb2ScanPos
      {
        var pos := smb2ScanPos;
        Smb2At(buffer, pos);
        if |buffer| < pos + 4 { break; }
        var total := 4 + BigEndian24(buffer[pos + 1], buffer[pos + 2], buffer[pos + 3]);
        if |buffer| < pos + total { break; }
        ScanSteps(Smb2, buffer, from, out, pos, total, buffer[pos + 4..pos + total]);
        out := out + [buffer[pos + 4..pos + total]];
        smb2ScanPos := smb2ScanPos + total;
      }
      ScanEnds(Smb2, buffer, Cursor(from, false), out, smb2ScanPos);
    }

    method NewModbusMessages() returns (out: seq<seq<byte>>)
      requires Valid()
      modifies this`modbusScanPos, this`modbusAbandoned
      ensures Valid() && Polled(out, At(Modbus)) == Poll(Modbus, buffer, old(At(Modbus)))
    {
      hide Scanned, Poll, Classify, Extract;
      out := [];
      if modbusAbandoned {
        PollStopped(Modbus, buffer, At(Modbus));
        return;
      }
      ghost var from := modbusScanPos;
      ghost var verdict := Wait;
      ScanStarts(Modbus, buffer, from);
      while true
        invariant modbusScanPos <= |buffer| && !modbusAbandoned && Scanned(Modbus, buffer, from, out, modbusScanPos)
        decreases |buffer| - modbusScanPos
      {
        var pos := modbusScanPos;
        ModbusAt(buffer, pos);
        verdict := Classify(Modbus, buffer[pos..]);
        if |buffer| < pos + 7 { break; }
        var protocolId := BigEndian16(buffer[pos + 2], buffer[pos + 3]);
        if protocolId != 0 {
          modbusAbandoned := true;
          break;
        }
        var length := BigEndian16(buffer[pos + 4], buffer[pos + 5]);
        if length == 0 {
          modbusAbandoned := true;
          break;
        }
        var total := 6 + length;
        if |buffer| < pos + total { break; }
        ScanSteps(Modbus, buffer, from, out, pos, total, buffer[pos + 7..pos + total]);
        out := out + [buffer[pos + 7..pos + total]];
        modbusScanPos := modbusScanPos + total;
      }
      assert verdict == Classify(Modbus, buffer[modbusScanPos..]);
      assert !verdict.Frame? && verdict.Stop? == modbusAbandoned;
      ScanEnds(Modbus, buffer, Cursor(from, false), out, modbusScanPos);
    }

    method NewDnp3Frames() returns (out: seq<seq<byte>>)
      requires Valid()
      modifies this`dnp3ScanPos, this`dnp3Abandoned
      ensures Valid() && Polled(out, At(Dnp3)) == Poll(Dnp3, buffer, old(At(Dnp3)))
    {
      hide Scanned, Poll, Classify, Extract;
      out := [];
      if dnp3Abandoned {
        PollStopped(Dnp3, buffer, At(Dnp3));
        return;
      }
      ghost var from := dnp3ScanPos;
      ghost var verdict := Wait;
      ScanStarts(Dnp3, buffer, from);
      while true
        invariant dnp3ScanPos <= |buffer| && !dnp3Abandoned && Scanned(Dnp3, buffer, from, out, dnp3ScanPos)
        decreases |buffer| - dnp3ScanPos
      {
        var pos := dnp3ScanPos;
        Dnp3At(buffer, pos);
        verdict := Classify(Dnp3, buffer[pos..]);
        if |buffer| < pos + 10 { break; }
        if buffer[pos] != 0x05 || buffer[pos + 1] != 0x64 {
          dnp3Abandoned := true;
          break;
        }
        var length := buffer[pos + 2];
        if length < 5 {
          dnp3Abandoned := true;
          break;
        }
        var userDataLen: int := length - 5;
        var numBlocks: int := (userDataLen + 15) / 16;
        var total := 10 + userDataLen + numBlocks * 2;
        assert total == 10 + (buffer[pos + 2] - 5) + CheckBytes(buffer[pos + 2] - 5);
        hide CheckBytes;
        if |buffer| < pos + total { break; }
        ScanSteps(Dnp3, buffer, from, out, pos, total, buffer[pos..pos + total]);
        out := out + [buffer[pos..pos + total]];
        dnp3ScanPos := dnp3ScanPos + total;
      }
      assert verdict == Classify(Dnp3, buffer[dnp3ScanPos..]);
      assert !verdict.Frame? && verdict.Stop? == dnp3Abandoned;
      ScanEnds(Dnp3, buffer, Cursor(from, false), out, dnp3ScanPos);
    }
  }

  lemma PollStopped(p: Protocol, s: seq<byte>, c: Cursor)
    requires c.stopped && c.pos <= |s|
    ensures Poll(p, s, c) == Polled([], c)
  {
  }

  lemma Smb2At(s: seq<byte>, pos: nat)
    requires pos <= |s|
    ensures Classify(Smb2, s[pos..]) ==
            if |s| < pos + 4 then Wait
            else
              var total := 4 + BigEndian24(s[pos + 1], s[pos + 2], s[pos + 3]);
              if |s| < pos + total then Wait else Frame(total, s[pos + 4..pos + total])
  {
    if |s| >= pos + 4 {
      var total := 4 + BigEndian24(s[pos + 1], s[pos + 2], s[pos + 3]);
      if |s| >= pos + total {
        assert s[pos..][4..total] == s[pos + 4..pos + total];
      }
    }
  }

  lemma ModbusAt(s: seq<byte>, pos: nat)
    requires pos <= |s|
    ensures Classify(Modbus, s[pos..]) ==
            if |s| < pos + 7 then Wait
            else if BigEndian16(s[pos + 2], s[pos + 3]) != 0 || BigEndian16(s[pos + 4], s[pos + 5]) == 0 then Stop
            else
              var total := 6 + BigEndian16(s[pos + 4], s[pos + 5]);
              if |s| < pos + total then Wait else Frame(total, s[pos + 7..pos + total])
  {
    if |s| >= pos + 7 {
      var total := 6 + BigEndian16(s[pos + 4], s[pos + 5]);
      if 7 <= total <= |s| - pos {
        assert s[pos..][7..total] == s[pos + 7..pos + total];
      }
    }
  }

  lemma Dnp3At(s: seq<byte>, pos: nat)
    requires pos <= |s|
    ensures Classify(Dnp3, s[pos..]) ==
            if |s| < pos + 10 then Wait
            else if s[pos] != 0x05 || s[pos + 1] != 0x64 || s[pos + 2] < 5 then Stop
            else
              var total := 10 + (s[pos + 2] - 5) + CheckBytes(s[pos + 2] - 5);
              if |s| < pos + total then Wait else Frame(total, s[pos..pos + total])
  {
    if |s| >= pos + 10 && s[pos + 2] >= 5 {
      var total := 10 + (s[pos + 2] - 5) + CheckBytes(s[pos + 2] - 5);
      if |s| >= pos + total {
        assert s[pos..][..total] == s[pos..pos + total];
      }
    }
  }

  lemma LineAt(buffer: seq<byte>, from: nat, start: nat, i: nat)
    requires from <= |buffer| && start <= i < |buffer| - from
    requires var slice := buffer[from..]; LF !in slice[start..i] && slice[i] == LF
    ensures Classify(Lines, buffer[from + start..]) == Frame(i + 1 - start, Chomped(buffer[from..][start..i]))
  {
    var slice, rest := buffer[from..], buffer[from + start..];
    var line := slice[start..i];
    assert rest == line + [LF] + slice[i + 1..];
    LfAtEnd(line, slice[i + 1..]);
    assert rest[..i - start] == line;
  }

  lemma ChompedEnd(slice: seq<byte>, start: nat, i: nat)
    requires start <= i <= |slice|
    ensures Chomped(slice[start..i]) == slice[start..if i > start && slice[i - 1] == CR then i - 1 else i]
  {
    if i > start && slice[i - 1] == CR {
      assert slice[start..i][..i - 1 - start] == slice[start..i - 1];
    }
  }

  lemma StillNoLf(slice: seq<byte>, start: nat, i: nat)
    requires start <= i < |slice| && LF !in slice[start..i] && slice[i] != LF
    ensures LF !in slice[start..i + 1]
  {
    assert slice[start..i + 1] == slice[start..i] + [slice[i]];
  }

  lemma NoLineAt(buffer: seq<byte>, from: nat, start: nat)
    requires from <= |buffer| && start <= |buffer| - from && LF !in buffer[from..][start..]
    ensures Classify(Lines, buffer[from + start..]).Wait?
  {
    var rest := buffer[from + start..];
    assert rest == buffer[from..][start..];
  }

  function After(front: seq<byte>, rest: Option<seq<byte>>): Option<seq<byte>> {
    if rest.Some? then Some(front + rest.value) else None
  }

  function TailFrom(msg: seq<byte>, pos: nat): seq<byte> {
    if pos <= |msg| then msg[pos..] else []
  }

  lemma DeblockAt(msg: seq<byte>, pos: nat, remaining: nat)
    requires remaining > 0
    ensures var chunk := Min(remaining, 16);
            var end := pos + chunk;
            Deblock(TailFrom(msg, pos), remaining) ==
            if |msg| < end then None else After(msg[pos..end], Deblock(TailFrom(msg, end + 2), remaining - chunk))
  {
    var end := pos + Min(remaining, 16);
    if end <= |msg| {
      assert msg[pos..][..end - pos] == msg[pos..end];
      assert end + 2 <= |msg| ==> msg[pos..][end - pos + 2..] == msg[end + 2..];
    }
  }

  lemma AfterAfter(a: seq<byte>, b: seq<byte>, rest: Option<seq<byte>>)
    ensures After(a, After(b, rest)) == After(a + b, rest)
    ensures After([], rest) == rest
  {
    if rest.Some? {
      assert a + (b + rest.value) == (a + b) + rest.value;
      assert [] + rest.value == rest.value;
    }
  }

  /** De-interleaving as the parser does it, block by block. */
  method ReadUserData(msg: seq<byte>) returns (data: Option<seq<byte>>)
    ensures data == UserData(msg)
  {
    if |msg| < 10 || msg[0] != 0x05 || msg[1] != 0x64 || msg[2] < 5 { return None; }
    var deblocked: seq<byte> := [];
    var pos, remaining := 10, msg[2] - 5;
    AfterAfter([], [], UserData(msg));
    hide Deblock, After;
    while remaining > 0
      invariant 10 <= pos && 0 <= remaining
      invariant UserData(msg) == After(deblocked, Deblock(TailFrom(msg, pos), remaining))
    {
      DeblockAt(msg, pos, remaining);
      var chunk := Min(remaining, 16);
      var end := pos + chunk;
      if |msg| < end {
        NoData(msg, deblocked);
        return None;
      }
      AfterAfter(deblocked, msg[pos..end], Deblock(TailFrom(msg, end + 2), remaining - chunk));
      deblocked := deblocked + msg[pos..end];
      pos := end + 2;
      remaining := remaining - chunk;
    }
    AllData(msg, deblocked, TailFrom(msg, pos));
    return Some(deblocked);
  }

  /** The name of the function code, the third byte of the user data. */
  method ParseDnp3Message(msg: seq<byte>) returns (action: Option<string>)
    ensures action.Some? <==> FunctionCode(msg).Some?
    ensures action.Some? ==> IsNamed(FunctionCode(msg).value, action.value)
    ensures forall data :: LinkFrame(msg, data) && |data| > 2 ==> action.Some? && IsNamed(data[2], action.value)
  {
    hide IsNamed, LinkFrame, UserData;
    FramesAreNamed(msg);
    var data := ReadUserData(msg);
    if data == None || |data.value| <= 2 { return None; }
    var name := FindFunctionName(data.value[2]);
    return Some(name);
  }

  /** The first row of the table with this code. */
  method FindFunctionName(code: byte) returns (name: string)
    ensures IsNamed(code, name)
  {
    for i := 0 to |DNP3_FUNCTIONS|
      invariant forall k :: 0 <= k < i ==> DNP3_FUNCTIONS[k].0 != code
    {
      if DNP3_FUNCTIONS[i].0 == code {
        return DNP3_FUNCTIONS[i].1;
      }
    }
    return "UNKNOWN";
  }

  /** Following a stream as it arrives: after each piece the cursor is asked for what is new. */
  method Follow(p: Protocol, pieces: seq<seq<byte>>) returns (messages: seq<seq<byte>>)
    ensures messages == Extract(p, Joined(pieces)).messages
    ensures forall sent, wires :: Sent(p, sent, wires) && Joined(pieces) == Joined(wires) ==> messages == sent
  {
    hide Extract, Classify, Poll, Sent;
    var b := new FramedBuffer();
    messages := [];
    for i := 0 to |pieces|
      invariant b.Valid() && b.buffer == Joined(pieces[..i])
      invariant Polled(messages, b.At(p)) == PollAll(p, pieces[..i])
    {
      assert pieces[..i + 1][..i] == pieces[..i];
      b.Extend(pieces[i]);
      var more;
      match p {
        case Lines => more := b.NewLines();
        case Smb2 => more := b.NewSmb2Messages();
        case Modbus => more := b.NewModbusMessages();
        case Dnp3 => more := b.NewDnp3Frames();
      }
      messages := messages + more;
    }
    assert pieces[..|pieces|] == pieces;
    CutsAreInvisible(p, pieces);
    forall sent, wires | Sent(p, sent, wires) && Joined(pieces) == Joined(wires)
      ensures messages == sent
    {
      SentIsFound(p, sent, wires);
    }
  }

  lemma FramesAreNamed(msg: seq<byte>)
    ensures forall data :: LinkFrame(msg, data) && |data| > 2 ==> FunctionCode(msg) == Some(data[2])
  {
    hide UserData;
    forall data | LinkFrame(msg, data) && |data| > 2
      ensures FunctionCode(msg) == Some(data[2])
    {
      UserDataSurvives(msg, data);
    }
  }

  lemma NoData(msg: seq<byte>, deblocked: seq<byte>)
    requires UserData(msg) == After(deblocked, None)
    ensures UserData(msg) == None
  {
  }

  lemma AllData(msg: seq<byte>, deblocked: seq<byte>, tail: seq<byte>)
    requires UserData(msg) == After(deblocked, Deblock(tail, 0))
    ensures UserData(msg) == Some(deblocked)
  {
    assert deblocked + [] == deblocked;
  }
}
