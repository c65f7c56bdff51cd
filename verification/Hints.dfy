// The payloads a hint is about, built from their formats, and what the hint says of them.
module Hints {
  import opened Wrappers
  import opened Address
  import opened Dissect

  function Word(n: uint16): (b: seq<byte>)
    ensures |b| == 2
  {
    [n / 256, n % 256]
  }

  lemma WordRead(b: seq<byte>, i: nat, n: uint16)
    requires i + 1 < |b| && b[i..i + 2] == Word(n)
    ensures U16(b, i) == n
  {
    assert b[i] == b[i..i + 2][0] && b[i + 1] == b[i..i + 2][1];
  }

  // ---- DNS ----

  /** A message with its header fields (section 4.1.1 of RFC 1035): `low` holds AA, TC and RD, `code`
      the bits behind them. */
  datatype DnsMessage = DnsMessage(
    id: uint16, response: bool, opcode: nat, low: nat, code: byte,
    questions: uint16, answers: uint16, authorities: uint16, additionals: uint16, rest: seq<byte>)
  {
    predicate Valid() { opcode < 16 && low < 8 }

    function Bytes(): seq<byte>
      requires Valid()
    {
      Word(id) + [(if response then 128 else 0) + 8 * opcode + low, code] +
      Word(questions) + Word(answers) + Word(authorities) + Word(additionals) + rest
    }

    predicate AsksSomething() { opcode == 0 && questions > 0 }
  }

  /** The content is a message of the standard kind with at least one question. */
  ghost predicate IsQuery(content: seq<byte>) {
    exists m: DnsMessage :: m.Valid() && m.AsksSomething() && content == m.Bytes()
  }

  lemma DnsRead(m: DnsMessage)
    requires m.Valid()
    ensures LooksDns(m.Bytes()) <==> m.opcode == 0 && m.questions > 0
  {
    var b := m.Bytes();
    WordRead(b, 4, m.questions);
    var flags: int := (if m.response then 128 else 0) + 8 * m.opcode + m.low;
    assert b[2] == flags;
    assert flags / 8 % 16 == m.opcode;
  }

  /** Any twelve bytes are the header of some message. */
  lemma DnsFields(content: seq<byte>) returns (m: DnsMessage)
    requires |content| >= 12
    ensures m.Valid() && content == m.Bytes()
  {
    var flags: int := content[2];
    m := DnsMessage(U16(content, 0), flags >= 128, flags / 8 % 16, flags % 8, content[3],
                    U16(content, 4), U16(content, 6), U16(content, 8), U16(content, 10), content[12..]);
    assert flags == (if flags >= 128 then 128 else 0) + 8 * (flags / 8 % 16) + flags % 8;
    assert Word(U16(content, 0)) == content[..2];
  }

  lemma DnsHint(content: seq<byte>)
    ensures LooksDns(content) <==> IsQuery(content)
  {
    if LooksDns(content) {
      var m := DnsFields(content);
      DnsRead(m);
    }
    if m: DnsMessage :| m.Valid() && m.AsksSomething() && content == m.Bytes() {
      DnsRead(m);
    }
  }

  // ---- TLS ----

  /** A record (section 5.1 of RFC 8446) and the first byte of what it carries. */
  datatype TlsRecord = TlsRecord(kind: byte, major: byte, minor: byte, length: uint16, message: byte, rest: seq<byte>) {
    function Bytes(): seq<byte> {
      [kind, major, minor] + Word(length) + [message] + rest
    }

    predicate Hello() { kind == 22 && major == 3 && minor <= 4 && message in {1, 2} }
  }

  ghost predicate IsHello(content: seq<byte>) {
    exists r: TlsRecord :: r.Hello() && content == r.Bytes()
  }

  lemma TlsRead(r: TlsRecord)
    ensures LooksTls(r.Bytes()) <==> r.kind == 22 && r.major == 3 && r.minor <= 4 && (r.message == 1 || r.message == 2)
  {
    assert r.Bytes()[5] == r.message;
  }

  lemma TlsHint(content: seq<byte>)
    ensures LooksTls(content) <==> IsHello(content)
  {
    if LooksTls(content) {
      var r := TlsRecord(content[0], content[1], content[2], U16(content, 3), content[5], content[6..]);
      assert Word(U16(content, 3)) == content[3..5];
      assert content == r.Bytes();
    }
    if r: TlsRecord :| r.Hello() && content == r.Bytes() {
      TlsRead(r);
    }
  }

  // ---- HTTP ----

  /** How an HTTP/1 message can begin: with a method and a space, or with the version. */
  const HTTP_TEXTS: seq<string> := ["GET ", "POST ", "HEAD ", "PUT ", "DELETE ", "OPTIONS ", "HTTP/1."]

  predicate Plain(text: string) {
    forall c | c in text :: c as int < 128
  }

  function Code(c: char): byte
    requires c as int < 128
  { c as int }

  function Ascii(text: string): seq<byte>
    requires Plain(text)
  {
    seq(|text|, i requires 0 <= i < |text| => assert text[i] in text; Code(text[i]))
  }

  ghost predicate StartsHttp(content: seq<byte>) {
    exists i :: 0 <= i < 7 && Plain(HTTP_TEXTS[i]) && Ascii(HTTP_TEXTS[i]) <= content
  }

  lemma HttpStarts(i: nat)
    requires i < 7
    ensures Plain(HTTP_TEXTS[i]) && Ascii(HTTP_TEXTS[i]) == HTTP_STARTS[i]
  {
  }

  lemma HttpHint(content: seq<byte>)
    ensures LooksHttp(content) <==> StartsHttp(content)
  {
    forall i: nat | i < 7
      ensures Plain(HTTP_TEXTS[i]) && Ascii(HTTP_TEXTS[i]) == HTTP_STARTS[i]
    {
      HttpStarts(i);
    }
    assert |HTTP_STARTS| == 7;
  }

  // ---- Both directions ----

  /** What the payload of a stream shows. */
  ghost function StreamContent(content: seq<byte>): Application {
    if IsHello(content) then Tls else if StartsHttp(content) then Http else Unknown
  }

  /** What the payload of a datagram between two ports shows. */
  ghost function DatagramContent(source: uint16, destination: uint16, content: seq<byte>): Application {
    if (source == 53 || destination == 53) && IsQuery(content) then Dns else Unknown
  }

  /** The hints are what the payloads are, for every payload and every pair of ports. */
  lemma HintsAreContents(source: uint16, destination: uint16, content: seq<byte>)
    ensures StreamHint(content) == StreamContent(content)
    ensures DatagramHint(source, destination, content) == DatagramContent(source, destination, content)
  {
    hide LooksDns, LooksTls, LooksHttp, IsQuery, IsHello, StartsHttp;
    DnsHint(content);
    TlsHint(content);
    HttpHint(content);
  }

  /** No payload looks like both HTTP and TLS. */
  lemma HintsExclusive(content: seq<byte>)
    ensures !(StartsHttp(content) && IsHello(content))
  {
    HttpHint(content);
    TlsHint(content);
    if LooksHttp(content) {
      var i :| 0 <= i < |HTTP_STARTS| && HTTP_STARTS[i] <= content;
      assert content[0] == HTTP_STARTS[i][0];
    }
  }
}
