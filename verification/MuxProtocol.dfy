/**
 The multiplexed relay protocol, seen from one channel: what each side may put on
 the WebSocket, in order. Both directions are append-only logs; a reader has
 always consumed a prefix of the other side's log.
 */
module MuxProtocol {
  import opened Bytes

  const MUX_WINDOW: nat := 256 * 1024
  const MUX_FRAME: nat := 64 * 1024
  const MUX_SOCKET_BUFFER: nat := 1024 * 1024

  /** Channel ids are 32-bit and not 0. */
  const MAX_ID: nat := 0xffff_ffff

  function Min(a: nat, b: nat): nat {
    if a <= b then a else b
  }

  /** A relay reply line: OK, ERR, EOF or IP. */
  datatype Reply = Okay | Error | Eof | Addresses

  /** Relay to client. */
  datatype Down = Line(reply: Reply) | Frame(bytes: seq<byte>) | Ack(count: nat) | Closed

  /** Client to relay: CONNECT or RESOLVE, FIN, WINDOW n, a data frame, CLOSE. */
  datatype Up = Command | Fin | Window(count: nat) | Payload(bytes: seq<byte>) | Shut

  /** What a client can observe of a download: bytes and lines in order. */
  datatype Token = Octet(b: byte) | Text(reply: Reply)

  function Octets(bytes: seq<byte>): (r: seq<Token>)
    ensures |r| == |bytes|
  {
    seq(|bytes|, i requires 0 <= i < |bytes| => Octet(bytes[i]))
  }

  function FrameBytes(log: seq<Down>): seq<byte> {
    if log == [] then [] else
      var rest, last := log[..|log| - 1], log[|log| - 1];
      if last.Frame? then FrameBytes(rest) + last.bytes else FrameBytes(rest)
  }

  function AckBytes(log: seq<Down>): nat {
    if log == [] then 0 else
      var rest, last := log[..|log| - 1], log[|log| - 1];
      if last.Ack? then AckBytes(rest) + last.count else AckBytes(rest)
  }

  function DownTokens(log: seq<Down>): seq<Token> {
    if log == [] then [] else
      var rest, last := log[..|log| - 1], log[|log| - 1];
      DownTokens(rest) + match last
                         case Line(reply) => [Text(reply)]
                         case Frame(bytes) => Octets(bytes)
                         case _ => []
  }

  function PayloadBytes(log: seq<Up>): seq<byte> {
    if log == [] then [] else
      var rest, last := log[..|log| - 1], log[|log| - 1];
      if last.Payload? then PayloadBytes(rest) + last.bytes else PayloadBytes(rest)
  }

  function WindowBytes(log: seq<Up>): nat {
    if log == [] then 0 else
      var rest, last := log[..|log| - 1], log[|log| - 1];
      if last.Window? then WindowBytes(rest) + last.count else WindowBytes(rest)
  }

  lemma Snoc<T>(log: seq<T>, m: T)
    ensures (log + [m])[..|log|] == log && (log + [m])[|log|] == m && log + [m] != []
  {
  }

  lemma DownSnoc(log: seq<Down>, m: Down)
    ensures FrameBytes(log + [m]) == FrameBytes(log) + if m.Frame? then m.bytes else []
    ensures AckBytes(log + [m]) == AckBytes(log) + if m.Ack? then m.count else 0
    ensures DownTokens(log + [m]) == DownTokens(log) + match m
                                                      case Line(reply) => [Text(reply)]
                                                      case Frame(bytes) => Octets(bytes)
                                                      case _ => []
  {
    Snoc(log, m);
  }

  lemma UpSnoc(log: seq<Up>, m: Up)
    ensures PayloadBytes(log + [m]) == PayloadBytes(log) + if m.Payload? then m.bytes else []
    ensures WindowBytes(log + [m]) == WindowBytes(log) + if m.Window? then m.count else 0
  {
    Snoc(log, m);
  }

  /** What a reader has seen so far is at most what was sent. */
  lemma {:induction false} DownPrefix(part: seq<Down>, log: seq<Down>)
    requires part <= log
    ensures FrameBytes(part) <= FrameBytes(log)
    ensures AckBytes(part) <= AckBytes(log)
    ensures DownTokens(part) <= DownTokens(log)
    decreases |log|
  {
    if |part| < |log| {
      DownPrefix(part, log[..|log| - 1]);
    } else {
      assert part == log;
    }
  }

  lemma {:induction false} UpPrefix(part: seq<Up>, log: seq<Up>)
    requires part <= log
    ensures PayloadBytes(part) <= PayloadBytes(log)
    ensures WindowBytes(part) <= WindowBytes(log)
    decreases |log|
  {
    if |part| < |log| {
      UpPrefix(part, log[..|log| - 1]);
    } else {
      assert part == log;
    }
  }

  lemma {:induction false} UpConcat(a: seq<Up>, b: seq<Up>)
    ensures PayloadBytes(a + b) == PayloadBytes(a) + PayloadBytes(b)
    ensures WindowBytes(a + b) == WindowBytes(a) + WindowBytes(b)
    decreases |b|
  {
    if b == [] {
      assert a + b == a;
    } else {
      assert (a + b)[..|a + b| - 1] == a + b[..|b| - 1];
      UpConcat(a, b[..|b| - 1]);
    }
  }

  // ---- One channel's part of a shared connection ----

  /** What was written for a channel. */
  function Written(sent: seq<(nat, Up)>, id: nat): seq<Up> {
    if sent == [] then [] else
      var rest, last := sent[..|sent| - 1], sent[|sent| - 1];
      Written(rest, id) + if last.0 == id then [last.1] else []
  }

  lemma {:induction false} WrittenConcat(a: seq<(nat, Up)>, b: seq<(nat, Up)>, id: nat)
    ensures Written(a + b, id) == Written(a, id) + Written(b, id)
    decreases |b|
  {
    if b == [] {
      assert a + b == a;
    } else {
      assert (a + b)[..|a + b| - 1] == a + b[..|b| - 1];
      WrittenConcat(a, b[..|b| - 1], id);
    }
  }

  lemma WrittenCons(head: (nat, Up), tail: seq<(nat, Up)>, id: nat)
    ensures Written([head] + tail, id) == (if head.0 == id then [head.1] else []) + Written(tail, id)
  {
    WrittenConcat([head], tail, id);
    assert [head][..0] == [];
    assert Written([head], id) == Written([], id) + if head.0 == id then [head.1] else [];
  }

  // ---- The order of commands on a connection ----

  /** The id of the last command, from `last` before; the relay refuses a command that is not above it. */
  function LastId(sent: seq<(nat, Up)>, last: nat): nat {
    if sent == [] then last else LastId(sent[1..], if sent[0].1.Command? then sent[0].0 else last)
  }

  /** Every command has a higher id than the commands before it. */
  predicate Rising(sent: seq<(nat, Up)>, last: nat) {
    sent == [] ||
      ((sent[0].1.Command? ==> last < sent[0].0) && Rising(sent[1..], if sent[0].1.Command? then sent[0].0 else last))
  }

  lemma {:induction false} RisingConcat(a: seq<(nat, Up)>, b: seq<(nat, Up)>, last: nat)
    ensures Rising(a + b, last) <==> Rising(a, last) && Rising(b, LastId(a, last))
    ensures LastId(a + b, last) == LastId(b, LastId(a, last))
    decreases |a|
  {
    if a == [] {
      assert a + b == b;
    } else {
      assert (a + b)[1..] == a[1..] + b;
      RisingConcat(a[1..], b, if a[0].1.Command? then a[0].0 else last);
    }
  }

  lemma RisingOne(id: nat, m: Up, last: nat)
    ensures Rising([(id, m)], last) <==> (m.Command? ==> last < id)
    ensures LastId([(id, m)], last) == if m.Command? then id else last
  {
    assert [(id, m)][1..] == [];
  }

  /** Ids that rise above `last` rise above anything lower. */
  lemma {:induction false} RisingLower(sent: seq<(nat, Up)>, last: nat, low: nat)
    requires low <= last && Rising(sent, last)
    ensures Rising(sent, low) && LastId(sent, low) <= LastId(sent, last) && last <= LastId(sent, last)
    decreases |sent|
  {
    if sent != [] {
      if sent[0].1.Command? {
        RisingLower(sent[1..], sent[0].0, sent[0].0);
      } else {
        RisingLower(sent[1..], last, low);
      }
    }
  }

  /** A relay that reads from message `start` on finds no command that is not above its last one. */
  lemma RisingFrom(sent: seq<(nat, Up)>, start: nat, k: nat)
    requires Rising(sent, 0) && start <= k < |sent| && sent[k].1.Command?
    ensures LastId(sent[start..k], 0) < sent[k].0
  {
    var a, b, c := sent[..start], sent[start..k], sent[k..];
    assert sent == a + (b + c) && c[0] == sent[k];
    RisingConcat(a, b + c, 0);
    RisingConcat(b, c, LastId(a, 0));
    RisingLower(b, LastId(a, 0), 0);
  }

  predicate NoCommand(sent: seq<(nat, Up)>) {
    forall i :: 0 <= i < |sent| ==> !sent[i].1.Command?
  }

  lemma {:induction false} RisingQuietly(sent: seq<(nat, Up)>, last: nat)
    requires NoCommand(sent)
    ensures Rising(sent, last) && LastId(sent, last) == last
    decreases |sent|
  {
    if sent != [] {
      RisingQuietly(sent[1..], last);
    }
  }
}
