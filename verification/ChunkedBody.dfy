/** Decoding a chunked HTTP body as section 7.1 of RFC 9112 lays it out. */
module ChunkedBody {
  import opened Wrappers

  type byte = x: int | 0 <= x < 256

  const CR: byte := '\r' as int
  const LF: byte := '\n' as int
  const SEMICOLON: byte := ';' as int
  const PLUS: byte := '+' as int
  const CRLF: seq<byte> := [CR, LF]
  const USIZE: int := 0x1_0000_0000_0000_0000

  datatype Error = MissingTerminator | NotUtf8 | InvalidSize | Truncated | SizeOverflow

  // ---------------------------------------------------------------- the chunk header

  /** The index of the first line terminator. */
  function LineEnd(s: seq<byte>): (end: Option<nat>)
    ensures end.Some? ==> end.value + 2 <= |s| && s[end.value..end.value + 2] == CRLF
  {
    if |s| < 2 then None
    else if s[..2] == CRLF then Some(0)
    else
      var rest := LineEnd(s[1..]);
      if rest.None? then None else Some(rest.value + 1)
  }

  predicate BreaksAt(s: seq<byte>, k: nat) {
    k + 2 <= |s| && s[k] == 13 && s[k + 1] == 10
  }

  lemma {:induction false} LineEndIsFirst(s: seq<byte>)
    ensures LineEnd(s).Some? ==> BreaksAt(s, LineEnd(s).value) && forall k: nat | k < LineEnd(s).value :: !BreaksAt(s, k)
    ensures LineEnd(s).None? ==> forall k: nat :: !BreaksAt(s, k)
  {
    if |s| >= 2 && s[..2] != CRLF {
      LineEndIsFirst(s[1..]);
      forall k: nat | BreaksAt(s, k)
        ensures LineEnd(s).Some? && k >= LineEnd(s).value
      {
        assert k > 0 && BreaksAt(s[1..], k - 1);
      }
    }
  }

  /** A line ends at the first carriage return that a line feed follows. */
  lemma LineEndIff(s: seq<byte>, end: nat)
    ensures LineEnd(s) == Some(end) <==> BreaksAt(s, end) && forall k: nat | k < end :: !BreaksAt(s, k)
  {
    LineEndIsFirst(s);
  }

  predicate Between(b: byte, low: int, high: int) {
    low <= b <= high
  }

  /** Well-formed UTF-8. */
  predicate Utf8(s: seq<byte>)
    decreases |s|
  {
    if s == [] then true
    else if s[0] < 0x80 then Utf8(s[1..])
    else if |s| >= 2 && Between(s[0], 0xC2, 0xDF) && Between(s[1], 0x80, 0xBF) then Utf8(s[2..])
    else if |s| >= 3 && Between(s[2], 0x80, 0xBF)
            && (|| (s[0] == 0xE0 && Between(s[1], 0xA0, 0xBF))
                || (s[0] == 0xED && Between(s[1], 0x80, 0x9F))
                || (Between(s[0], 0xE1, 0xEF) && s[0] != 0xED && Between(s[1], 0x80, 0xBF))) then Utf8(s[3..])
    else if |s| >= 4 && Between(s[2], 0x80, 0xBF) && Between(s[3], 0x80, 0xBF)
            && (|| (s[0] == 0xF0 && Between(s[1], 0x90, 0xBF))
                || (Between(s[0], 0xF1, 0xF3) && Between(s[1], 0x80, 0xBF))
                || (s[0] == 0xF4 && Between(s[1], 0x80, 0x8F))) then Utf8(s[4..])
    else false
  }

  /** What comes before the first semicolon. */
  function BeforeSemicolon(s: seq<byte>): seq<byte> {
    if s == [] || s[0] == SEMICOLON then [] else [s[0]] + BeforeSemicolon(s[1..])
  }

  predicate IsHexDigit(b: byte) {
    Between(b, 48, 57) || Between(b, 65, 70) || Between(b, 97, 102)
  }

  function HexDigit(b: byte): nat
    requires IsHexDigit(b)
  {
    if b <= 57 then b - 48 else if b <= 70 then b - 55 else b - 87
  }

  /** The hexadecimal digits and their values. */
  lemma HexDigitIff(b: byte)
    ensures IsHexDigit(b) <==>
            || '0' as int <= b <= '9' as int || 'A' as int <= b <= 'F' as int || 'a' as int <= b <= 'f' as int
    ensures IsHexDigit(b) ==>
              HexDigit(b) == if b <= '9' as int then b - '0' as int else if b <= 'F' as int then b - 'A' as int + 10 else b - 'a' as int + 10
  {
  }

  predicate AllHex(s: seq<byte>) {
    forall b | b in s :: IsHexDigit(b)
  }

  function HexValue(s: seq<byte>): nat
    requires AllHex(s)
  {
    if s == [] then 0 else HexValue(s[..|s| - 1]) * 16 + HexDigit(s[|s| - 1])
  }

  /** usize::from_str_radix: one leading plus is accepted. */
  function ParseSize(s: seq<byte>): Option<nat> {
    var digits := if |s| > 1 && s[0] == PLUS then s[1..] else s;
    if digits == [] || !AllHex(digits) || HexValue(digits) >= USIZE then None else Some(HexValue(digits))
  }

  predicate HexNumber(s: seq<byte>, n: nat) {
    s != [] && AllHex(s) && HexValue(s) == n
  }

  /** A size is a hexadecimal number below 2^64, with or without a plus sign. */
  lemma SizeIff(s: seq<byte>, n: nat)
    ensures ParseSize(s) == Some(n) <==>
            n < 0x1_0000_0000_0000_0000 && (HexNumber(s, n) || (s != [] && s[0] == '+' as int && HexNumber(s[1..], n)))
  {
    if s != [] && s[0] == PLUS {
      assert s[0] in s;
      assert !AllHex(s);
    }
  }

  function HeadSize(head: seq<byte>): Result<nat, Error> {
    if !Utf8(head) then Err(NotUtf8)
    else
      var size := ParseSize(BeforeSemicolon(head));
      if size.None? then Err(InvalidSize) else Ok(size.value)
  }

  // ---------------------------------------------------------------- the body

  function Prepend(data: seq<byte>, r: Result<seq<byte>, Error>): Result<seq<byte>, Error> {
    if r.Err? then r else Ok(data + r.value)
  }

  /** The meaning of a body from a chunk header on. */
  function Decoded(body: seq<byte>): Result<seq<byte>, Error>
    decreases |body|
  {
    var end := LineEnd(body);
    if end.None? then Err(MissingTerminator)
    else
      var size := HeadSize(body[..end.value]);
      var rest := body[end.value + 2..];
      if size.Err? then Err(size.error)
      else if size.value == 0 then Ok([])
      else if size.value + 2 >= USIZE then Err(SizeOverflow)
      else if |rest| < size.value + 2 then Err(Truncated)
      else Prepend(rest[..size.value], Decoded(rest[size.value + 2..]))
  }

  lemma PrependTwice(a: seq<byte>, b: seq<byte>, r: Result<seq<byte>, Error>)
    ensures Prepend(a, Prepend(b, r)) == Prepend(a + b, r)
  {
    if r.Ok? {
      assert a + (b + r.value) == (a + b) + r.value;
    }
  }

  /** decode_chunked_body. Every pass of the loop shortens what is left. */
  method DecodeChunkedBody(body: seq<byte>) returns (r: Result<seq<byte>, Error>)
    ensures r == Decoded(body)
  {
    var cursor, decoded := body, [];
    assert Decoded(body).Ok? ==> [] + Decoded(body).value == Decoded(body).value;
    while true
      invariant Decoded(body) == Prepend(decoded, Decoded(cursor))
      decreases |cursor|
    {
      var end := LineEnd(cursor);
      if end.None? {
        return Err(MissingTerminator);
      }
      var size := HeadSize(cursor[..end.value]);
      if size.Err? {
        return Err(size.error);
      }
      cursor := cursor[end.value + 2..];
      if size.value == 0 {
        assert decoded + [] == decoded;
        return Ok(decoded);
      }
      if size.value + 2 >= USIZE {
        return Err(SizeOverflow);
      }
      if |cursor| < size.value + 2 {
        return Err(Truncated);
      }
      PrependTwice(decoded, cursor[..size.value], Decoded(cursor[size.value + 2..]));
      decoded := decoded + cursor[..size.value];
      cursor := cursor[size.value + 2..];
    }
  }

  // ---------------------------------------------------------------- what is accepted

  /** A chunk on the wire: its header line, its data and the two bytes after the data. */
  datatype Chunk = Chunk(head: seq<byte>, data: seq<byte>, after: seq<byte>)

  function Data(chunks: seq<Chunk>): seq<byte> {
    if chunks == [] then [] else chunks[0].data + Data(chunks[1..])
  }

  predicate OneLine(head: seq<byte>) {
    LineEnd(head).None?
  }

  /** What the decoder takes for a chunk: the two bytes after the data may be anything. */
  predicate Accepted(c: Chunk) {
    && OneLine(c.head) && HeadSize(c.head) == Ok(|c.data|)
    && 0 < |c.data| < USIZE - 2 && |c.after| == 2
  }

  predicate AcceptedLast(head: seq<byte>) {
    OneLine(head) && HeadSize(head) == Ok(0)
  }

  lemma {:induction false} FirstLine(head: seq<byte>, rest: seq<byte>)
    requires OneLine(head)
    ensures LineEnd(head + CRLF + rest) == Some(|head|)
  {
    var s := head + CRLF + rest;
    if head == [] {
      assert s[..2] == CRLF;
    } else {
      assert s[1..] == head[1..] + CRLF + rest;
      if |head| >= 2 {
        assert s[..2] == head[..2];
      } else {
        assert s[1] == CR;
      }
      FirstLine(head[1..], rest);
    }
  }

  lemma {:induction false} BeforeLineEnd(s: seq<byte>)
    requires LineEnd(s).Some?
    ensures OneLine(s[..LineEnd(s).value])
  {
    var end := LineEnd(s).value;
    if end > 0 {
      BeforeLineEnd(s[1..]);
      assert s[..end][1..] == s[1..][..end - 1];
      if end >= 2 {
        assert s[..end][..2] == s[..2];
      }
    }
  }

  function ChunkThen(c: Chunk, tail: seq<byte>): seq<byte> {
    c.head + CRLF + (c.data + c.after + tail)
  }

  function LastThen(last: seq<byte>, rest: seq<byte>): seq<byte> {
    last + CRLF + rest
  }

  lemma DecodesChunk(c: Chunk, tail: seq<byte>)
    requires Accepted(c)
    ensures Decoded(ChunkThen(c, tail)) == Prepend(c.data, Decoded(tail))
  {
    var body, left := ChunkThen(c, tail), c.data + c.after + tail;
    FirstLine(c.head, left);
    assert body[..|c.head|] == c.head && body[|c.head| + 2..] == left;
    assert left[..|c.data|] == c.data && left[|c.data| + 2..] == tail;
  }

  lemma DecodesLast(last: seq<byte>, rest: seq<byte>)
    requires AcceptedLast(last)
    ensures Decoded(LastThen(last, rest)) == Ok([])
  {
    FirstLine(last, rest);
    assert LastThen(last, rest)[..|last|] == last;
  }

  /** A chunked body: chunks, the header of the last one, and whatever follows. */
  function Body(chunks: seq<Chunk>, last: seq<byte>, rest: seq<byte>): seq<byte> {
    if chunks == [] then LastThen(last, rest) else ChunkThen(chunks[0], Body(chunks[1..], last, rest))
  }

  /** Decoding accepted chunks, an accepted last header and any further bytes gives the data. */
  lemma {:induction false} DecodesBody(chunks: seq<Chunk>, last: seq<byte>, rest: seq<byte>)
    requires forall c | c in chunks :: Accepted(c)
    requires AcceptedLast(last)
    ensures Decoded(Body(chunks, last, rest)) == Ok(Data(chunks))
    decreases |chunks|
  {
    if chunks == [] {
      DecodesLast(last, rest);
    } else {
      DecodesChunk(chunks[0], Body(chunks[1..], last, rest));
      DecodesBody(chunks[1..], last, rest);
    }
  }

  predicate Reads(body: seq<byte>, chunks: seq<Chunk>, last: seq<byte>, rest: seq<byte>) {
    && (forall c | c in chunks :: Accepted(c))
    && AcceptedLast(last)
    && body == Body(chunks, last, rest)
  }

  /** The first line of what is decoded is a last header, or begins a chunk before something that
      is decoded. */
  lemma DecodedSplits(body: seq<byte>) returns (head: seq<byte>, c: Chunk, tail: seq<byte>)
    requires Decoded(body).Ok?
    ensures if AcceptedLast(head) then body == LastThen(head, tail)
            else Accepted(c) && |tail| < |body| && body == ChunkThen(c, tail) && Decoded(tail).Ok?
  {
    var left;
    head, left := SplitLine(body);
    var size := HeadSize(head).value;
    if size == 0 {
      c, tail := Chunk([], [], []), left;
    } else {
      c, tail := SplitChunk(head, left, size);
    }
  }

  lemma SplitLine(body: seq<byte>) returns (head: seq<byte>, left: seq<byte>)
    requires LineEnd(body).Some?
    ensures OneLine(head) && head == body[..LineEnd(body).value] && left == body[LineEnd(body).value + 2..]
    ensures body == head + CRLF + left
  {
    BeforeLineEnd(body);
    head, left := body[..LineEnd(body).value], body[LineEnd(body).value + 2..];
  }

  lemma SplitChunk(head: seq<byte>, left: seq<byte>, size: nat) returns (c: Chunk, tail: seq<byte>)
    requires size + 2 <= |left|
    ensures c == Chunk(head, left[..size], left[size..size + 2]) && tail == left[size + 2..]
    ensures head + CRLF + left == ChunkThen(c, tail)
  {
    c, tail := Chunk(head, left[..size], left[size..size + 2]), left[size + 2..];
    assert left == c.data + c.after + tail;
  }

  /** Whatever is decoded is such a body. */
  lemma {:induction false} DecodedIsBody(body: seq<byte>) returns (chunks: seq<Chunk>, last: seq<byte>, rest: seq<byte>)
    requires Decoded(body).Ok?
    ensures Reads(body, chunks, last, rest)
    decreases |body|
  {
    var c;
    last, c, rest := DecodedSplits(body);
    if AcceptedLast(last) {
      chunks := [];
    } else {
      var more;
      more, last, rest := DecodedIsBody(rest);
      chunks := [c] + more;
      assert chunks[1..] == more;
    }
  }

  /** The decoder's language, exactly. */
  lemma DecodesIff(body: seq<byte>, data: seq<byte>)
    ensures Decoded(body) == Ok(data) <==>
            exists chunks, last, rest :: Reads(body, chunks, last, rest) && data == Data(chunks)
  {
    if Decoded(body).Ok? {
      var chunks, last, rest := DecodedIsBody(body);
      DecodesBody(chunks, last, rest);
    }
    forall chunks, last, rest | Reads(body, chunks, last, rest)
      ensures Decoded(body) == Ok(Data(chunks))
    {
      DecodesBody(chunks, last, rest);
    }
  }

  // ---------------------------------------------------------------- the standard's chunks

  predicate Blank(b: byte) {
    b == 32 || b == 9
  }

  function AfterBlanks(s: seq<byte>): seq<byte> {
    if s != [] && Blank(s[0]) then AfterBlanks(s[1..]) else s
  }

  /** The extension part of a header: nothing, or white space, a semicolon and any bytes of one line.
      Every extension of the standard, with names, values and quoted strings, is of this form. */
  predicate Extension(ext: seq<byte>) {
    CR !in ext && (ext == [] || (AfterBlanks(ext) != [] && AfterBlanks(ext)[0] == SEMICOLON))
  }

  /** The extensions that the decoder tolerates: UTF-8 without white space before the semicolon. */
  predicate Tolerated(ext: seq<byte>) {
    (ext == [] || ext[0] == SEMICOLON) && Utf8(ext)
  }

  /** A header line: digits in either case, leading zeros allowed, and an extension. */
  predicate StandardHead(digits: seq<byte>, ext: seq<byte>, size: nat) {
    digits != [] && AllHex(digits) && HexValue(digits) == size && Extension(ext)
  }

  lemma {:induction false} NoCrIsOneLine(head: seq<byte>)
    requires CR !in head
    ensures OneLine(head)
  {
    if |head| >= 2 {
      assert head[..2][0] == head[0];
      NoCrIsOneLine(head[1..]);
    }
  }

  lemma {:induction false} DigitsThenExtension(digits: seq<byte>, ext: seq<byte>)
    requires AllHex(digits)
    ensures BeforeSemicolon(digits + ext) == digits + BeforeSemicolon(ext) && Utf8(digits + ext) == Utf8(ext)
  {
    var s := digits + ext;
    if digits == [] {
      assert s == ext;
    } else {
      assert IsHexDigit(digits[0]);
      assert s[1..] == digits[1..] + ext;
      DigitsThenExtension(digits[1..], ext);
      assert [digits[0]] + (digits[1..] + BeforeSemicolon(ext)) == digits + BeforeSemicolon(ext);
    }
  }

  /** A standard header is read, with its size, exactly if its extension is tolerated. */
  lemma StandardHeadIff(digits: seq<byte>, ext: seq<byte>, size: nat)
    requires StandardHead(digits, ext, size) && size < USIZE
    ensures OneLine(digits + ext)
    ensures if Tolerated(ext) then HeadSize(digits + ext) == Ok(size) else HeadSize(digits + ext).Err?
  {
    DigitsThenExtension(digits, ext);
    assert IsHexDigit(digits[0]);
    NoCrIsOneLine(digits + ext);
    if Tolerated(ext) {
      assert digits + [] == digits;
    } else if Utf8(ext) {
      BlankIsNoSize(digits, ext);
    }
  }

  lemma BlankIsNoSize(digits: seq<byte>, ext: seq<byte>)
    requires digits != [] && AllHex(digits) && ext != [] && Blank(ext[0])
    ensures ParseSize(digits + BeforeSemicolon(ext)) == None
  {
    var s := digits + BeforeSemicolon(ext);
    assert s[|digits|] == ext[0] && s[0] == digits[0] && IsHexDigit(digits[0]);
    assert ext[0] in s;
  }

  datatype StandardChunk = StandardChunk(digits: seq<byte>, ext: seq<byte>, data: seq<byte>)

  predicate Standard(c: StandardChunk) {
    0 < |c.data| < USIZE - 2 && StandardHead(c.digits, c.ext, |c.data|)
  }

  function OnWire(chunks: seq<StandardChunk>): seq<Chunk> {
    seq(|chunks|, i requires 0 <= i < |chunks| => Chunk(chunks[i].digits + chunks[i].ext, chunks[i].data, CRLF))
  }

  function Joined(parts: seq<seq<byte>>): seq<byte> {
    if parts == [] then [] else parts[0] + Joined(parts[1..])
  }

  function Parts(chunks: seq<StandardChunk>): seq<seq<byte>> {
    seq(|chunks|, i requires 0 <= i < |chunks| => chunks[i].data)
  }

  /** A chunked body of the standard, with any trailer after the last chunk, decodes to its data exactly
      if all its extensions are tolerated; any other is an error. */
  lemma {:induction false} StandardDecodesIff(chunks: seq<StandardChunk>, zeros: seq<byte>, ext: seq<byte>, rest: seq<byte>)
    requires forall c | c in chunks :: Standard(c)
    requires StandardHead(zeros, ext, 0)
    ensures
      var r := Decoded(Body(OnWire(chunks), zeros + ext, rest));
      if (forall c | c in chunks :: Tolerated(c.ext)) && Tolerated(ext) then r == Ok(Joined(Parts(chunks))) else r.Err?
    decreases |chunks|
  {
    if chunks == [] {
      StandardHeadIff(zeros, ext, 0);
      if Tolerated(ext) {
        DecodesLast(zeros + ext, rest);
      } else {
        HeadRefused(zeros + ext, rest);
      }
    } else {
      var c, wire := chunks[0], OnWire(chunks)[0];
      assert c in chunks && Standard(c);
      assert OnWire(chunks)[1..] == OnWire(chunks[1..]) && Parts(chunks)[1..] == Parts(chunks[1..]);
      var tail := Body(OnWire(chunks[1..]), zeros + ext, rest);
      StandardHeadIff(c.digits, c.ext, |c.data|);
      StandardDecodesIff(chunks[1..], zeros, ext, rest);
      assert chunks == [c] + chunks[1..];
      if Tolerated(c.ext) {
        DecodesChunk(wire, tail);
      } else {
        HeadRefused(wire.head, wire.data + wire.after + tail);
      }
    }
  }

  lemma HeadRefused(head: seq<byte>, rest: seq<byte>)
    requires OneLine(head) && HeadSize(head).Err?
    ensures Decoded(head + CRLF + rest).Err?
  {
    FirstLine(head, rest);
    assert (head + CRLF + rest)[..|head|] == head;
  }

  /** The digits that an encoder writes, with upper-case or lower-case letters. */
  function Digits(n: nat, upper: bool): (digits: seq<byte>)
    ensures AllHex(digits) && digits != [] && HexValue(digits) == n
  {
    var d := n % 16;
    var digit: byte := if d < 10 then '0' as int + d else (if upper then 'A' as int else 'a' as int) + d - 10;
    if n < 16 then [digit]
    else
      var more := Digits(n / 16, upper);
      assert (more + [digit])[..|more|] == more;
      more + [digit]
  }

  function Plain(data: seq<seq<byte>>, upper: bool): seq<StandardChunk> {
    seq(|data|, i requires 0 <= i < |data| => StandardChunk(Digits(|data[i]|, upper), [], data[i]))
  }

  /** Round trip: non-empty chunks, encoded in the plainest way, come back joined. */
  lemma RoundTrip(data: seq<seq<byte>>, upper: bool, rest: seq<byte>)
    requires forall d | d in data :: 0 < |d| < USIZE - 2
    ensures Decoded(Body(OnWire(Plain(data, upper)), Digits(0, upper), rest)) == Ok(Joined(data))
  {
    forall c | c in Plain(data, upper)
      ensures Standard(c) && Tolerated(c.ext)
    {
      var i :| 0 <= i < |data| && Plain(data, upper)[i] == c;
      assert data[i] in data;
    }
    assert Digits(0, upper) + [] == Digits(0, upper);
    StandardDecodesIff(Plain(data, upper), Digits(0, upper), [], rest);
    assert Parts(Plain(data, upper)) == data;
  }
}
