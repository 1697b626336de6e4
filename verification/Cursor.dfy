/** The text of a change cursor: a compact JSON object in URL-safe base64 with the padding taken
    off (src/mnema/file_provider/service.py:130-145; sections 4 and 7 of RFC 8259, sections 3.2
    and 5 of RFC 4648). */
module CursorCodec {
  import opened Basics

  // ---------------------------------------------------------------- base64url

  function Digit(n: nat): (c: char)
    requires n < 64
    ensures c != '='
  {
    if n < 26 then ('A' as int + n) as char
    else if n < 52 then ('a' as int + (n - 26)) as char
    else if n < 62 then ('0' as int + (n - 52)) as char
    else if n == 62 then '-' else '_'
  }

  function Value(c: char): (v: Option<nat>)
    ensures v.Some? ==> v.value < 64
  {
    if 'A' <= c <= 'Z' then Some(c as int - 'A' as int)
    else if 'a' <= c <= 'z' then Some(c as int - 'a' as int + 26)
    else if '0' <= c <= '9' then Some(c as int - '0' as int + 52)
    else if c == '-' then Some(62)
    else if c == '_' then Some(63)
    else None
  }

  lemma ValueOfDigit(n: nat)
    requires n < 64
    ensures Value(Digit(n)) == Some(n)
  {
  }

  /** The URL-safe alphabet: upper case, lower case, digits, each in order, then minus and underscore. */
  lemma DigitsInOrder(n: nat)
    requires n < 63
    ensures Digit(0) == 'A' && Digit(26) == 'a' && Digit(52) == '0' && Digit(62) == '-' && Digit(63) == '_'
    ensures n != 25 && n != 51 && n != 61 && n != 62 ==> Digit(n + 1) as int == Digit(n) as int + 1
  {
  }

  /** The four digits are the 24 bits of the three bytes, most significant first. */
  lemma QuadIsBigEndian(b0: byte, b1: byte, b2: byte)
    ensures var s := Quad(b0, b1, b2);
            && Value(s[0]).Some? && Value(s[1]).Some? && Value(s[2]).Some? && Value(s[3]).Some?
            && Value(s[0]).value * 262144 + Value(s[1]).value * 4096 + Value(s[2]).value * 64 + Value(s[3]).value
            == b0 as nat * 65536 + b1 as nat * 256 + b2 as nat
  {
    var x, y, z := b0 as int, b1 as int, b2 as int;
    ValueOfDigit(x / 4);
    ValueOfDigit(x % 4 * 16 + y / 16);
    ValueOfDigit(y % 16 * 4 + z / 64);
    ValueOfDigit(z % 64);
    hide Digit, Value;
  }

  function Quad(b0: byte, b1: byte, b2: byte): (s: string)
    ensures |s| == 4 && s[0] != '=' && s[1] != '=' && s[2] != '=' && s[3] != '='
  {
    var x, y, z := b0 as int, b1 as int, b2 as int;
    [Digit(x / 4), Digit(x % 4 * 16 + y / 16), Digit(y % 16 * 4 + z / 64), Digit(z % 64)]
  }

  /** Three bytes become four digits; a short last group is padded to four. */
  function Encode64(b: Bytes): string {
    if b == [] then ""
    else if |b| == 1 then Quad(b[0], 0, 0)[..2] + "=="
    else if |b| == 2 then Quad(b[0], b[1], 0)[..3] + "="
    else Quad(b[0], b[1], b[2]) + Encode64(b[3..])
  }

  /** The bytes of one group of four characters, fewer than three when it is padded. */
  function Group(s: string): Option<Bytes>
    requires |s| == 4
  {
    if Value(s[0]).None? || Value(s[1]).None? then None
    else
      var v0, v1 := Value(s[0]).value, Value(s[1]).value;
      var first := (v0 * 4 + v1 / 16) as byte;
      if s[2] == '=' && s[3] == '=' then Some([first])
      else if Value(s[2]).None? then None
      else
        var v2 := Value(s[2]).value;
        var second := (v1 % 16 * 16 + v2 / 4) as byte;
        if s[3] == '=' then Some([first, second])
        else if Value(s[3]).None? then None
        else Some([first, second, (v2 % 4 * 64 + Value(s[3]).value) as byte])
  }

  /** Only the last group may be padded. */
  function Decode64(s: string): Option<Bytes> {
    if s == "" then Some([])
    else if |s| < 4 then None
    else
      var group := Group(s[..4]);
      if group.None? || |s| == 4 then group
      else if |group.value| < 3 then None
      else
        var rest := Decode64(s[4..]);
        if rest.None? then None else Some(group.value + rest.value)
  }

  lemma FirstByte(b0: nat, low: nat)
    requires b0 < 256 && low < 16
    ensures b0 / 4 < 64 && b0 % 4 * 16 + low < 64
    ensures b0 / 4 * 4 + (b0 % 4 * 16 + low) / 16 == b0
    ensures (b0 % 4 * 16 + low) % 16 == low
  {
  }

  lemma SecondByte(b1: nat, low: nat)
    requires b1 < 256 && low < 4
    ensures b1 % 16 * 4 + low < 64
    ensures b1 / 16 * 16 + (b1 % 16 * 4 + low) / 4 == b1
    ensures (b1 % 16 * 4 + low) % 4 == low
  {
  }

  lemma GroupOfQuad(b0: byte, b1: byte, b2: byte)
    ensures var s := Quad(b0, b1, b2);
            && Group(s) == Some([b0, b1, b2])
            && (b2 == 0 ==> Group(s[..3] + "=") == Some([b0, b1]))
            && (b1 == 0 && b2 == 0 ==> Group(s[..2] + "==") == Some([b0]))
  {
    var x, y, z := b0 as int, b1 as int, b2 as int;
    FirstByte(x, y / 16);
    SecondByte(y, z / 64);
    ValueOfDigit(x / 4);
    ValueOfDigit(x % 4 * 16 + y / 16);
    ValueOfDigit(y % 16 * 4 + z / 64);
    ValueOfDigit(z % 64);
    hide Digit, Value;
  }

  lemma {:induction false} Decode64OfEncode64(b: Bytes)
    ensures Decode64(Encode64(b)) == Some(b)
  {
    hide Quad, Group;
    var s := Encode64(b);
    if |b| == 1 {
      GroupOfQuad(b[0], 0, 0);
      assert s[..4] == s && b == [b[0]];
    } else if |b| == 2 {
      GroupOfQuad(b[0], b[1], 0);
      assert s[..4] == s && b == [b[0], b[1]];
    } else if |b| > 2 {
      GroupOfQuad(b[0], b[1], b[2]);
      Decode64OfEncode64(b[3..]);
      assert s[..4] == Quad(b[0], b[1], b[2]) && s[4..] == Encode64(b[3..]);
      assert b == [b[0], b[1], b[2]] + b[3..];
      assert b[3..] == [] ==> b == [b[0], b[1], b[2]];
    }
  }

  // ---------------------------------------------------------------- padding

  function Stripped(s: string): string {
    if s != "" && s[|s| - 1] == '=' then Stripped(s[..|s| - 1]) else s
  }

  function Equals(n: nat): string {
    if n == 0 then "" else Equals(n - 1) + "="
  }

  /** The padding put back from the length alone. */
  function Padded(s: string): string {
    s + Equals((-|s|) % 4)
  }

  lemma {:induction false} Encode64Shape(b: Bytes)
    ensures |Encode64(b)| % 4 == 0
    ensures |Stripped(Encode64(b))| <= |Encode64(b)| <= |Stripped(Encode64(b))| + 2
    ensures Encode64(b) == Stripped(Encode64(b)) + Equals(|Encode64(b)| - |Stripped(Encode64(b))|)
  {
    hide Quad, Stripped, Equals;
    ShortPadding();
    var s := Encode64(b);
    if |b| == 1 {
      assert s == s[..2] + Equals(2);
      StrippedOfPadded(s[..2], 2);
    } else if |b| == 2 {
      assert s == s[..3] + Equals(1);
      StrippedOfPadded(s[..3], 1);
    } else if |b| > 2 {
      Encode64Shape(b[3..]);
      StrippedAfter(Quad(b[0], b[1], b[2]), Encode64(b[3..]));
    }
  }

  lemma ShortPadding()
    ensures Stripped("") == Equals(0) == "" && Equals(1) == "=" && Equals(2) == "=="
  {
  }

  lemma {:induction false} StrippedOfPadded(head: string, n: nat)
    requires head != "" && head[|head| - 1] != '='
    ensures Stripped(head + Equals(n)) == head && |Equals(n)| == n
  {
    if n > 0 {
      assert (head + Equals(n))[..|head + Equals(n)| - 1] == head + Equals(n - 1);
      StrippedOfPadded(head, n - 1);
    } else {
      assert head + Equals(0) == head;
    }
  }

  lemma {:induction false} StrippedAfter(head: string, tail: string)
    requires head != "" && head[|head| - 1] != '='
    ensures Stripped(head + tail) == head + Stripped(tail)
  {
    if tail != "" && tail[|tail| - 1] == '=' {
      assert (head + tail)[..|head + tail| - 1] == head + tail[..|tail| - 1];
      StrippedAfter(head, tail[..|tail| - 1]);
    } else if tail == "" {
      assert head + tail == head;
    }
  }

  /** What decode_cursor appends is exactly what encode_cursor took off. */
  lemma PaddingIsRecomputed(b: Bytes)
    ensures Padded(Stripped(Encode64(b))) == Encode64(b)
  {
    hide Encode64, Stripped, Equals;
    Encode64Shape(b);
    MissingToFour(|Stripped(Encode64(b))|, |Encode64(b)|);
  }

  lemma MissingToFour(n: int, m: int)
    requires m % 4 == 0 && 0 <= n <= m <= n + 2
    ensures (-n) % 4 == m - n
  {
  }

  // ---------------------------------------------------------------- JSON

  datatype Json = Text(text: string) | Number(number: int)

  /** Printable ASCII that json.dumps writes as it is. */
  predicate Plain(c: char) {
    ' ' <= c <= '~' && c != '"' && c != '\\'
  }

  predicate NeedsNoEscape(generation: string) {
    forall k :: 0 <= k < |generation| ==> Plain(generation[k])
  }

  function Quoted(text: string): string {
    "\"" + text + "\""
  }

  function Decimal(n: nat): (s: string)
    ensures s != ""
    ensures forall k :: 0 <= k < |s| ==> '0' <= s[k] <= '9'
  {
    var digit := [('0' as int + n % 10) as char];
    if n < 10 then digit else Decimal(n / 10) + digit
  }

  /** json.dumps with compact separators. */
  function Dumped(generation: string, sequence: nat): string {
    "{" + Quoted("g") + ":" + Quoted(generation) + "," + Quoted("s") + ":" + Decimal(sequence) + "}"
  }

  datatype Parsed<+T> = Parsed(value: T, rest: string)

  /** The characters up to the closing quote. */
  function ScanText(s: string): (p: Option<Parsed<string>>)
    ensures p.Some? ==> |p.value.rest| < |s|
  {
    if s == "" then None
    else if s[0] == '"' then Some(Parsed("", s[1..]))
    else if !Plain(s[0]) then None
    else
      var p := ScanText(s[1..]);
      if p.None? then None else Some(Parsed([s[0]] + p.value.value, p.value.rest))
  }

  function ScanDigits(s: string, value: nat): (p: Parsed<nat>)
    ensures |p.rest| <= |s|
  {
    if s == "" || !('0' <= s[0] <= '9') then Parsed(value, s)
    else ScanDigits(s[1..], value * 10 + (s[0] as int - '0' as int))
  }

  /** An integer: an optional minus, then a lone zero or digits that do not start with one. */
  function ScanNumber(s: string): (p: Option<Parsed<int>>)
    ensures p.Some? ==> |p.value.rest| < |s|
  {
    if s == "" then None
    else if s[0] == '-' then
      if |s| < 2 || !('0' <= s[1] <= '9') then None
      else
        var p := ScanNatural(s[1..]);
        var negated: int := 0 - p.value;
        Some(Parsed(negated, p.rest))
    else if '0' <= s[0] <= '9' then
      var p := ScanNatural(s); Some(Parsed(p.value as int, p.rest))
    else None
  }

  function ScanNatural(s: string): (p: Parsed<nat>)
    requires s != "" && '0' <= s[0] <= '9'
    ensures |p.rest| < |s|
  {
    if s[0] == '0' then Parsed(0, s[1..])
    else
      var digit: nat := s[0] as int - '0' as int;
      ScanDigits(s[1..], digit)
  }

  function ScanValue(s: string): (p: Option<Parsed<Json>>)
    ensures p.Some? ==> |p.value.rest| < |s|
  {
    if s != "" && s[0] == '"' then
      var t := ScanText(s[1..]);
      if t.None? then None else Some(Parsed(Text(t.value.value), t.value.rest))
    else
      var n := ScanNumber(s);
      if n.None? then None else Some(Parsed(Number(n.value.value), n.value.rest))
  }

  /** One member, then a comma and more members or the closing brace; a later member with the same
      name replaces an earlier one. */
  function ScanMembers(s: string, members: map<string, Json>): Option<Parsed<map<string, Json>>>
    decreases |s|
  {
    if s == "" || s[0] != '"' then None
    else
      var name := ScanText(s[1..]);
      if name.None? || name.value.rest == "" || name.value.rest[0] != ':' then None
      else
        var value := ScanValue(name.value.rest[1..]);
        if value.None? || value.value.rest == "" then None
        else
          var m := members[name.value.value := value.value.value];
          if value.value.rest[0] == '}' then Some(Parsed(m, value.value.rest[1..]))
          else if value.value.rest[0] == ',' then ScanMembers(value.value.rest[1..], m)
          else None
  }

  /** json.loads on an object of strings and integers, with nothing after it. */
  function Loaded(s: string): Option<map<string, Json>> {
    if s == "" || s[0] != '{' then None
    else if s[1..] == "}" then Some(map[])
    else
      var p := ScanMembers(s[1..], map[]);
      if p.None? || p.value.rest != "" then None else Some(p.value.value)
  }

  lemma {:induction false} ScanTextOfPlain(text: string, rest: string)
    requires NeedsNoEscape(text)
    ensures ScanText(text + "\"" + rest) == Some(Parsed(text, rest))
  {
    var s := text + "\"" + rest;
    if text == "" {
      assert s[1..] == rest;
    } else {
      assert s[1..] == text[1..] + "\"" + rest;
      ScanTextOfPlain(text[1..], rest);
      assert text == [text[0]] + text[1..];
    }
  }

  lemma {:induction false} ScanDigitsOfDecimal(n: nat, rest: string)
    requires n > 0
    ensures Decimal(n)[0] != '0'
    ensures ScanDigits(Decimal(n) + rest, 0) == ScanDigits(rest, n)
  {
    var digit := [('0' as int + n % 10) as char];
    if n < 10 {
      assert (Decimal(n) + rest)[1..] == rest;
    } else {
      ScanDigitsOfDecimal(n / 10, digit + rest);
      assert Decimal(n) + rest == Decimal(n / 10) + (digit + rest);
      assert (digit + rest)[1..] == rest;
    }
  }

  lemma ScanNumberOfDecimal(n: nat, rest: string)
    requires rest != "" && !('0' <= rest[0] <= '9')
    ensures ScanNumber(Decimal(n) + rest) == Some(Parsed(n, rest))
  {
    var s := Decimal(n) + rest;
    assert s[0] == Decimal(n)[0];
    if n == 0 {
      assert s[1..] == rest;
    } else {
      ScanDigitsOfDecimal(n, rest);
      hide Decimal;
      assert ScanDigits(s, 0) == ScanDigits(s[1..], s[0] as int - '0' as int);
      assert ScanDigits(rest, n) == Parsed(n, rest);
    }
  }

  lemma FirstMember(generation: string, tail: string)
    requires NeedsNoEscape(generation)
    ensures ScanMembers("\"g\":\"" + (generation + "\"" + ("," + tail)), map[])
            == ScanMembers(tail, map["g" := Text(generation)])
  {
    hide ScanText, ScanNumber;
    var value := generation + "\"" + ("," + tail);
    var s := "\"g\":\"" + value;
    ScanTextOfPlain("g", ":\"" + value);
    assert s[1..] == "g" + "\"" + (":\"" + value);
    assert (":\"" + value)[1..] == "\"" + value && ("\"" + value)[1..] == value;
    ScanTextOfPlain(generation, "," + tail);
    assert ("," + tail)[1..] == tail;
  }

  lemma LastMember(sequence: nat, members: map<string, Json>)
    ensures ScanMembers("\"s\":" + (Decimal(sequence) + "}"), members)
            == Some(Parsed(members["s" := Number(sequence)], ""))
  {
    hide ScanText, ScanNumber;
    var last := Decimal(sequence) + "}";
    var s := "\"s\":" + last;
    ScanTextOfPlain("s", ":" + last);
    assert s[1..] == "s" + "\"" + (":" + last);
    assert (":" + last)[1..] == last;
    ScanNumberOfDecimal(sequence, "}");
    assert last[0] == Decimal(sequence)[0] && "}"[1..] == "";
  }

  lemma LoadedOfDumped(generation: string, sequence: nat)
    requires NeedsNoEscape(generation)
    ensures Loaded(Dumped(generation, sequence)) == Some(map["g" := Text(generation), "s" := Number(sequence)])
  {
    hide ScanMembers, Decimal;
    var s := Dumped(generation, sequence);
    var tail := "\"s\":" + (Decimal(sequence) + "}");
    FirstMember(generation, tail);
    LastMember(sequence, map["g" := Text(generation)]);
    assert s[1..] == "\"g\":\"" + (generation + "\"" + ("," + tail));
    assert s[1..][0] == '"';
  }

  // ---------------------------------------------------------------- the cursor

  predicate Ascii(s: string) {
    forall k :: 0 <= k < |s| ==> s[k] < 128 as char
  }

  function Utf8(s: string): Bytes
    requires Ascii(s)
  {
    seq(|s|, k requires 0 <= k < |s| => s[k] as int as byte)
  }

  /** ASCII bytes read back as text; anything else is out of this model's reach and refused. */
  function FromUtf8(b: Bytes): Option<string> {
    if forall k :: 0 <= k < |b| ==> b[k] < 128
    then Some(seq(|b|, k requires 0 <= k < |b| && b[k] < 128 => b[k] as int as char))
    else None
  }

  lemma DumpedIsAscii(generation: string, sequence: nat)
    requires NeedsNoEscape(generation)
    ensures Ascii(Dumped(generation, sequence))
  {
    hide Decimal;
    var head := "{" + Quoted("g") + ":" + Quoted(generation);
    var tail := "," + Quoted("s") + ":" + Decimal(sequence) + "}";
    assert Ascii(head) && Ascii(tail);
    assert Dumped(generation, sequence) == head + tail;
  }

  function EncodeCursor(generation: string, sequence: nat): string
    requires NeedsNoEscape(generation)
  {
    DumpedIsAscii(generation, sequence);
    Stripped(Encode64(Utf8(Dumped(generation, sequence))))
  }

  datatype ChangeCursor = ChangeCursor(generation: string, sequence: nat)

  /** None stands for the ValueError of an invalid cursor. */
  function DecodeCursor(cursor: string): Option<ChangeCursor> {
    var bytes := Decode64(Padded(cursor));
    if bytes.None? then None
    else
      var text := FromUtf8(bytes.value);
      if text.None? then None
      else
        var payload := Loaded(text.value);
        if payload.None? || "g" !in payload.value || "s" !in payload.value then None
        else
          var g, s := payload.value["g"], payload.value["s"];
          if !g.Text? || !s.Number? || s.number < 0 then None
          else Some(ChangeCursor(g.text, s.number))
  }

  /** Decoding what was encoded gives the pair back, for every such generation and every sequence. */
  lemma CursorRoundTrip(generation: string, sequence: nat)
    requires NeedsNoEscape(generation)
    ensures DecodeCursor(EncodeCursor(generation, sequence)) == Some(ChangeCursor(generation, sequence))
  {
    hide Dumped, Loaded, Encode64, Decode64, Stripped, Padded;
    var text := Dumped(generation, sequence);
    DumpedIsAscii(generation, sequence);
    PaddingIsRecomputed(Utf8(text));
    Decode64OfEncode64(Utf8(text));
    assert FromUtf8(Utf8(text)).value == text;
    LoadedOfDumped(generation, sequence);
  }

  /** So two cursors are the same text only when they stand for the same place. */
  lemma CursorsAreDistinct(g1: string, s1: nat, g2: string, s2: nat)
    requires NeedsNoEscape(g1) && NeedsNoEscape(g2)
    requires EncodeCursor(g1, s1) == EncodeCursor(g2, s2)
    ensures g1 == g2 && s1 == s2
  {
    hide EncodeCursor, DecodeCursor;
    CursorRoundTrip(g1, s1);
    CursorRoundTrip(g2, s2);
  }
}
