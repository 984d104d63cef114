/**
 * What the message cursors make of any bytes at all (src/engine.rs, `new_lines`, `new_smb2_messages`,
 * `new_modbus_messages`, `new_dnp3_frames`): a message is returned exactly when one stands at the cursor, and a stream
 * is given up exactly when no more bytes could make one.
 */
module FrameSyntax {
  import opened Base
  import opened Framing

  /** One message of the protocol stands at the head of the bytes. */
  ghost predicate Heads(p: Protocol, s: seq<byte>, message: seq<byte>, size: nat) {
    size <= |s| && OnWire(p, message, s[..size])
  }

  lemma {:induction false} NoLf(s: seq<byte>)
    requires LF !in s
    ensures FirstLf(s) == |s|
  {
    if s != [] {
      NoLf(s[1..]);
    }
  }

  lemma HeadsIsFrame(p: Protocol, s: seq<byte>, message: seq<byte>, size: nat)
    requires Heads(p, s, message, size)
    ensures Classify(p, s) == Frame(size, message)
  {
    hide Classify, OnWire;
    WireIsRecognised(p, message, s[..size], s[size..]);
    assert s[..size] + s[size..] == s;
  }

  lemma LineFrameHeads(s: seq<byte>)
    requires Classify(Lines, s).Frame?
    ensures Heads(Lines, s, Classify(Lines, s).message, Classify(Lines, s).size)
  {
    var i := FirstLf(s);
    var line, message := s[..i], Chomped(s[..i]);
    assert s[..i + 1] == line + [LF];
    if message != line {
      assert line == message + [CR];
      assert message + [CR] + [LF] == message + [CR, LF];
    }
  }

  lemma Smb2FrameHeads(s: seq<byte>)
    requires Classify(Smb2, s).Frame?
    ensures Heads(Smb2, s, Classify(Smb2, s).message, Classify(Smb2, s).size)
  {
    hide BigEndian24;
    var total := Classify(Smb2, s).size;
    assert s[..total][4..] == s[4..total];
  }

  lemma ModbusFrameHeads(s: seq<byte>)
    requires Classify(Modbus, s).Frame?
    ensures Heads(Modbus, s, Classify(Modbus, s).message, Classify(Modbus, s).size)
  {
    hide BigEndian16;
    var total := Classify(Modbus, s).size;
    assert s[..total][7..] == s[7..total];
  }

  /** Whatever the check bytes are, a run of the right length is blocked from some data. */
  lemma {:induction false} Unblock(wire: seq<byte>, n: nat) returns (data: seq<byte>)
    requires |wire| == n + CheckBytes(n)
    ensures |data| == n && Blocked(wire, data)
    decreases n
  {
    if n == 0 {
      data := [];
    } else {
      var k := Min(16, n);
      CheckBytesStep(n);
      var rest := Unblock(wire[k + 2..], n - k);
      data := wire[..k] + rest;
      assert data[..k] == wire[..k] && data[k..] == rest;
    }
  }

  lemma CheckBytesStep(n: nat)
    requires n > 0
    ensures CheckBytes(n) == 2 + CheckBytes(n - Min(16, n))
  {
  }

  lemma Dnp3FrameHeads(s: seq<byte>)
    requires Classify(Dnp3, s).Frame?
    ensures Heads(Dnp3, s, Classify(Dnp3, s).message, Classify(Dnp3, s).size)
  {
    hide Blocked, CheckBytes;
    var total := Classify(Dnp3, s).size;
    var wire := s[..total];
    var data := Unblock(wire[10..], s[2] - 5);
    assert LinkFrame(wire, data);
  }

  /** A message is returned exactly when one stands at the cursor, whole. */
  lemma FrameIff(p: Protocol, s: seq<byte>, message: seq<byte>, size: nat)
    ensures Classify(p, s) == Frame(size, message) <==> Heads(p, s, message, size)
  {
    if Classify(p, s) == Frame(size, message) {
      hide Classify, OnWire;
      match p {
        case Lines => LineFrameHeads(s);
        case Smb2 => Smb2FrameHeads(s);
        case Modbus => ModbusFrameHeads(s);
        case Dnp3 => Dnp3FrameHeads(s);
      }
    }
    hide Classify;
    if Heads(p, s, message, size) {
      HeadsIsFrame(p, s, message, size);
    }
  }

  // ----- When to wait, and when to give up -----

  ghost predicate CanBecome(p: Protocol, s: seq<byte>) {
    exists more: seq<byte>, message: seq<byte>, size: nat :: Heads(p, s + more, message, size)
  }

  function Zeros(n: nat): seq<byte> {
    seq(n, _ => 0)
  }

  /** Bytes that make a message of what is still waiting for one. */
  lemma WaitingLine(s: seq<byte>)
    requires Classify(Lines, s).Wait?
    ensures Classify(Lines, s + [LF]).Frame?
  {
    assert LF !in s by {
      assert s[..|s|] == s;
    }
    LfAtEnd(s, []);
    assert s + [LF] + [] == s + [LF];
  }

  lemma WaitingSmb2(s: seq<byte>)
    requires Classify(Smb2, s).Wait? && |s| >= 4
    ensures Classify(Smb2, s + Zeros(0x100_0004)).Frame?
  {
    var t := s + Zeros(0x100_0004);
    assert 4 + BigEndian24(t[1], t[2], t[3]) <= |t|;
  }

  lemma WaitingModbus(s: seq<byte>)
    requires Classify(Modbus, s).Wait? && |s| >= 7
    ensures Classify(Modbus, s + Zeros(0x1_0000)).Frame?
  {
    var t := s + Zeros(0x1_0000);
    assert t[2] == s[2] && t[3] == s[3] && t[4] == s[4] && t[5] == s[5];
    assert 6 + BigEndian16(s[4], s[5]) <= |t|;
  }

  lemma WaitingDnp3(s: seq<byte>)
    requires Classify(Dnp3, s).Wait? && |s| >= 10
    ensures Classify(Dnp3, s + Zeros(300)).Frame?
  {
    var t := s + Zeros(300);
    assert t[0] == s[0] && t[1] == s[1] && t[2] == s[2];
    assert CheckBytes(s[2] - 5) <= 34;
  }

  /** Enough bytes to tell: what a verdict needs of the header. */
  function HeaderSize(p: Protocol): nat {
    match p
    case Lines => 0
    case Smb2 => 4
    case Modbus => 7
    case Dnp3 => 10
  }

  /**
   * A stream is given up exactly when a whole header has come and nothing that could follow would make a message of it;
   * while a header is short there is always waiting.
   */
  lemma StopIff(p: Protocol, s: seq<byte>)
    ensures Classify(p, s).Stop? <==> |s| >= HeaderSize(p) && !CanBecome(p, s)
    ensures |s| < HeaderSize(p) ==> Classify(p, s).Wait?
  {
    if Classify(p, s).Stop? && CanBecome(p, s) {
      var more: seq<byte>, message: seq<byte>, size: nat :| Heads(p, s + more, message, size);
      VerdictsLast(p, s, more);
      hide Classify;
      FrameIff(p, s + more, message, size);
    }
    if |s| >= HeaderSize(p) && !Classify(p, s).Stop? {
      var more := Completion(p, s);
      var v := Classify(p, s + more);
      hide Classify;
      FrameIff(p, s + more, v.message, v.size);
    }
  }

  lemma Completion(p: Protocol, s: seq<byte>) returns (more: seq<byte>)
    requires |s| >= HeaderSize(p) && !Classify(p, s).Stop?
    ensures Classify(p, s + more).Frame?
  {
    if Classify(p, s).Frame? {
      more := [];
      assert s + more == s;
    } else {
      match p {
        case Lines =>
          more := [LF];
          WaitingLine(s);
        case Smb2 =>
          more := Zeros(0x100_0004);
          WaitingSmb2(s);
        case Modbus =>
          more := Zeros(0x1_0000);
          WaitingModbus(s);
        case Dnp3 =>
          more := Zeros(300);
          WaitingDnp3(s);
      }
    }
  }

  // ----- The DNP3 link layer -----

  /** What the last check bytes are not needed for. */
  function NeededFor(n: nat): nat {
    if n == 0 then 0 else n + (n - 1) / 16 * 2
  }

  lemma NeededStep(n: nat)
    requires n > 16
    ensures NeededFor(n) == 18 + NeededFor(n - 16)
  {
  }

  /** User data comes out exactly when its last byte has come, each byte from behind the check bytes before it. */
  lemma {:induction false} DeblockIff(wire: seq<byte>, n: nat)
    ensures Deblock(wire, n).Some? <==> |wire| >= NeededFor(n)
    ensures Deblock(wire, n).Some? ==>
      |Deblock(wire, n).value| == n &&
      forall i :: 0 <= i < n ==> i + i / 16 * 2 < |wire| && Deblock(wire, n).value[i] == wire[i + i / 16 * 2]
    decreases n
  {
    hide Deblock;
    DeblockUnfolds(wire, n);
    if n > 16 {
      NeededStep(n);
      var rest := if |wire| < 18 then [] else wire[18..];
      DeblockIff(rest, n - 16);
      if Deblock(wire, n).Some? {
        DeblockTail(wire, n);
      }
    } else if n > 0 {
      DeblockIff(if |wire| < n + 2 then [] else wire[n + 2..], 0);
    }
  }

  lemma DeblockUnfolds(wire: seq<byte>, n: nat)
    ensures n == 0 ==> Deblock(wire, n) == Some([])
    ensures n > 0 ==>
      var k := Min(n, 16);
      var rest := Deblock(if |wire| < k + 2 then [] else wire[k + 2..], n - k);
      Deblock(wire, n) == if |wire| < k || rest.None? then None else Some(wire[..k] + rest.value)
  {
  }

  lemma DeblockTail(wire: seq<byte>, n: nat)
    requires n > 16 && |wire| >= 18 && Deblock(wire[18..], n - 16).Some?
    requires var rest := Deblock(wire[18..], n - 16).value;
      Deblock(wire, n) == Some(wire[..16] + rest) && |rest| == n - 16 &&
      forall i :: 0 <= i < n - 16 ==> i + i / 16 * 2 < |wire| - 18 && rest[i] == wire[18..][i + i / 16 * 2]
    ensures forall i :: 0 <= i < n ==>
      i + i / 16 * 2 < |wire| && Deblock(wire, n).value[i] == wire[i + i / 16 * 2]
  {
    hide Deblock;
    var rest := Deblock(wire[18..], n - 16).value;
    var data := wire[..16] + rest;
    forall i | 0 <= i < n
      ensures i + i / 16 * 2 < |wire| && data[i] == wire[i + i / 16 * 2]
    {
      if i >= 16 {
        var j := i - 16;
        assert j / 16 == i / 16 - 1;
        assert data[i] == rest[j];
      }
    }
  }

  /**
   * The function code, the third byte of the user data, is the thirteenth of the frame, when sync and length are right,
   * there are at least three bytes of user data, and the last of them has come.
   */
  lemma FunctionCodeIff(msg: seq<byte>)
    ensures FunctionCode(msg).Some? <==>
      |msg| >= 10 && msg[0] == 0x05 && msg[1] == 0x64 && msg[2] >= 8 && |msg| >= 10 + NeededFor(msg[2] - 5)
    ensures FunctionCode(msg).Some? ==> |msg| >= 13 && FunctionCode(msg).value == msg[12]
  {
    hide Deblock;
    if |msg| >= 10 && msg[2] >= 5 {
      DeblockIff(msg[10..], msg[2] - 5);
    }
  }
}
