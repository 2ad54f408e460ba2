/** The wire forms of the protocol's messages: data frames and control lines. */
module MuxCodec {
  import opened Bytes
  import opened MuxProtocol
  import opened Trap

  // ---- Data frames ----

  function BeValue(s: seq<byte>): nat {
    LeValue(Reverse(s))
  }

  /** A big-endian channel id and the data. */
  function EncodeData(id: nat, data: seq<byte>): seq<byte> {
    BeBytes(id, 4) + data
  }

  function DecodeData(frame: seq<byte>): Option<(nat, seq<byte>)> {
    if |frame| < 5 || |frame| > MUX_FRAME + 4 then None
    else if BeValue(frame[..4]) == 0 then None
    else Some((BeValue(frame[..4]), frame[4..]))
  }

  lemma ReverseTwice(s: seq<byte>)
    ensures Reverse(Reverse(s)) == s
  {
  }

  /** A frame decodes to what was encoded exactly when the peer would accept it. */
  lemma DataRoundTrip(id: nat, data: seq<byte>)
    requires id <= MAX_ID
    ensures DecodeData(EncodeData(id, data)) == Some((id, data)) <==> 0 < id && 0 < |data| <= MUX_FRAME
  {
    Radix4();
    LeRoundTrip(id, 4);
    ReverseTwice(LeBytes(id, 4));
    var frame := EncodeData(id, data);
    assert frame[..4] == BeBytes(id, 4) && frame[4..] == data;
  }

  /** Decoding loses nothing. */
  lemma DataIsFaithful(frame: seq<byte>)
    requires DecodeData(frame).Some?
    ensures var (id, data) := DecodeData(frame).value;
            EncodeData(id, data) == frame && 0 < id <= MAX_ID && 0 < |data| <= MUX_FRAME
  {
    Radix4();
    var head := frame[..4];
    LeBytesOfValue(Reverse(head));
    LeValueBound(Reverse(head));
    ReverseTwice(head);
    assert frame == head + frame[4..];
  }

  // ---- Numbers in text ----

  predicate IsDigit(c: char) {
    '0' <= c <= '9'
  }

  function Digit(d: nat): (c: char)
    requires d < 10
    ensures IsDigit(c)
  {
    '0' + d as char
  }

  function Decimal(n: nat): (s: string)
    ensures s != [] && forall i :: 0 <= i < |s| ==> IsDigit(s[i])
    ensures n > 0 ==> s[0] != '0'
  {
    if n < 10 then [Digit(n)] else Decimal(n / 10) + [Digit(n % 10)]
  }

  function Number(s: string): nat
    requires forall i :: 0 <= i < |s| ==> IsDigit(s[i])
  {
    if s == [] then 0 else assert IsDigit(s[|s| - 1]); 10 * Number(s[..|s| - 1]) + (s[|s| - 1] as int - '0' as int)
  }

  lemma {:induction false} NumberOfDecimal(n: nat)
    ensures Number(Decimal(n)) == n
  {
    if n < 10 {
      assert Number([Digit(n)]) == 10 * Number([Digit(n)][..0]) + n;
    } else {
      NumberOfDecimal(n / 10);
      assert Decimal(n)[..|Decimal(n)| - 1] == Decimal(n / 10);
    }
  }

  /** How many digits a string starts with. */
  function Digits(s: string): (k: nat)
    ensures k <= |s| && (forall i :: 0 <= i < k ==> IsDigit(s[i])) && (k < |s| ==> !IsDigit(s[k]))
  {
    if s == [] || !IsDigit(s[0]) then 0 else 1 + Digits(s[1..])
  }

  /** A numeral without leading zeros. */
  predicate Numeral(s: string) {
    s != [] && s[0] != '0' && forall i :: 0 <= i < |s| ==> IsDigit(s[i])
  }

  // ---- Control lines ----

  predicate OneLine(s: string) {
    forall i :: 0 <= i < |s| ==> s[i] != '\n' && s[i] != '\r' && s[i] != '\U{2028}' && s[i] != '\U{2029}'
  }

  function EncodeControl(id: nat, command: string): string {
    Decimal(id) + " " + command
  }

  function DecodeControl(text: string): Option<(nat, string)> {
    if |text| > 4096 then None else
      var k := Digits(text);
      if k == 0 || text[0] == '0' || k + 1 >= |text| || text[k] != ' ' || !OneLine(text[k + 1..]) then None
      else if Number(text[..k]) > MAX_ID then None
      else Some((Number(text[..k]), text[k + 1..]))
  }

  lemma {:induction false} DigitsOf(s: string, rest: string)
    requires (forall i :: 0 <= i < |s| ==> IsDigit(s[i])) && (rest != [] ==> !IsDigit(rest[0]))
    ensures Digits(s + rest) == |s|
  {
    if s == [] {
      assert s + rest == rest;
    } else {
      DigitsOf(s[1..], rest);
      assert (s + rest)[1..] == s[1..] + rest;
    }
  }

  /** A control line decodes to its id and command exactly when it is short and well formed. */
  lemma ControlRoundTrip(id: nat, command: string)
    requires 0 < id <= MAX_ID
    ensures DecodeControl(EncodeControl(id, command)) == Some((id, command))
       <==> command != [] && OneLine(command) && |EncodeControl(id, command)| <= 4096
  {
    var head := Decimal(id);
    var text := EncodeControl(id, command);
    assert text == head + (" " + command);
    DigitsOf(head, " " + command);
    NumberOfDecimal(id);
    assert text[..|head|] == head && text[|head| + 1..] == command;
  }

  // ---- Credits ----

  datatype CreditResult = NotCredit | Invalid | Bytes(count: nat)

  function Credit(command: string, prefix: string): CreditResult {
    if !(prefix + " " <= command) then NotCredit else
      var value := command[|prefix| + 1..];
      if !Numeral(value) then Invalid
      else if Number(value) > MUX_WINDOW then Invalid
      else Bytes(Number(value))
  }

  /** ACK n and WINDOW n carry n exactly when it is a possible credit. */
  lemma CreditRoundTrip(prefix: string, n: nat)
    ensures Credit(prefix + " " + Decimal(n), prefix) == Bytes(n) <==> 0 < n <= MUX_WINDOW
  {
    var command := prefix + " " + Decimal(n);
    assert command[|prefix| + 1..] == Decimal(n);
    NumberOfDecimal(n);
    if n == 0 {
      assert Decimal(0) == "0";
    }
  }
}
