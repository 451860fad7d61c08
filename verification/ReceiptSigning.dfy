/**
 The text that receipt signatures cover: an ASCII-only JSON printer, and a JSON string reader
 after section 7 of RFC 8259 that shows nothing is lost in it. A `char` is a Unicode scalar
 value, as in a Rust string.
 */
module ReceiptSigning {
  import opened Prelude
  import opened Bytes
  import opened Printing

  const QUOTE: char := '\"'
  const BACKSLASH: char := '\\'

  /** `{:04x}`. */
  function Hex4(u: int): (s: string)
    requires 0 <= u < 0x10000
    ensures |s| == 4
  {
    [HexDigit(u / 0x1000), HexDigit(u / 0x100 % 0x10), HexDigit(u / 0x10 % 0x10), HexDigit(u % 0x10)]
  }

  function UnitEscape(u: int): (s: string)
    requires 0 <= u < 0x10000
    ensures |s| == 6 && s[0] == BACKSLASH && s[1] == 'u' && s[2..] == Hex4(u)
  {
    [BACKSLASH, 'u'] + Hex4(u)
  }

  function HighSurrogate(n: int): (u: int)
    requires 0x10000 <= n < 0x110000
    ensures 0xD800 <= u < 0xDC00
  {
    0xD800 + (n - 0x10000) / 0x400
  }

  function LowSurrogate(n: int): (u: int)
    requires 0x10000 <= n < 0x110000
    ensures 0xDC00 <= u < 0xE000
  {
    0xDC00 + (n - 0x10000) % 0x400
  }

  /** One escape for each UTF-16 code unit of the character. */
  function UnicodeEscape(c: char): string {
    var n := c as int;
    if n < 0x10000 then UnitEscape(n) else UnitEscape(HighSurrogate(n)) + UnitEscape(LowSurrogate(n))
  }

  /** Characters with a two-character escape, and the letter it ends in. */
  function Letter(c: char): Option<char> {
    if c == QUOTE || c == BACKSLASH then Some(c)
    else if c == '\n' then Some('n')
    else if c == '\r' then Some('r')
    else if c == '\t' then Some('t')
    else if c as int == 0x08 then Some('b')
    else if c as int == 0x0C then Some('f')
    else None
  }

  function PrintChar(c: char): string {
    if Letter(c).Some? then [BACKSLASH, Letter(c).value]
    else if c as int < 0x20 || c as int > 0x7F then UnicodeEscape(c)
    else [c]
  }

  /** `ascii_json_string`. */
  method AsciiJsonString(s: string) returns (o: string)
    ensures o == Quote(PrintChar, s)
  {
    var body := "";
    for i := 0 to |s|
      invariant body == PrintAll(PrintChar, s[..i])
    {
      assert s[..i + 1][..i] == s[..i];
      body := body + PrintChar(s[i]);
    }
    assert s[..|s|] == s;
    return [QUOTE] + body + [QUOTE];
  }

  // ---- the reader ---------------------------------------------------------------------------

  function HexUnit(t: string): (u: Option<int>)
    ensures u.Some? ==> 0 <= u.value < 0x10000
  {
    if |t| < 4 then None
    else
      var a, b, c, d := HexValue(t[0]), HexValue(t[1]), HexValue(t[2]), HexValue(t[3]);
      if a.None? || b.None? || c.None? || d.None? then None
      else Some(0x1000 * a.value + 0x100 * b.value + 0x10 * c.value + d.value)
  }

  function Unescape(letter: char): Option<char> {
    if letter == QUOTE || letter == BACKSLASH || letter == '/' then Some(letter)
    else if letter == 'n' then Some('\n')
    else if letter == 'r' then Some('\r')
    else if letter == 't' then Some('\t')
    else if letter == 'b' then Some(0x08 as char)
    else if letter == 'f' then Some(0x0C as char)
    else None
  }

  /** A `\u` escape: one code unit and six characters. */
  function ReadUnit(t: string): (u: Option<int>)
    ensures u.Some? ==> 0 <= u.value < 0x10000 && |t| >= 6
  {
    if |t| < 6 || t[0] != BACKSLASH || t[1] != 'u' then None else HexUnit(t[2..])
  }

  /** One or two code units; a lone surrogate is refused. */
  function ReadUnicode(t: string): Option<(char, nat)> {
    var u := ReadUnit(t);
    if u.None? then None
    else if u.value < 0xD800 || 0xE000 <= u.value then Some((u.value as char, 6))
    else if 0xDC00 <= u.value then None
    else
      var low := ReadUnit(t[6..]);
      if low.None? || low.value < 0xDC00 || 0xE000 <= low.value then None
      else Some(((0x10000 + (u.value - 0xD800) * 0x400 + (low.value - 0xDC00)) as char, 12))
  }

  /** One character of a string body and how much text it took. */
  function ReadChar(t: string): Option<(char, nat)> {
    if t == "" || t[0] == QUOTE || t[0] as int < 0x20 then None
    else if t[0] != BACKSLASH then Some((t[0], 1))
    else if |t| < 2 then None
    else if t[1] == 'u' then ReadUnicode(t)
    else if Unescape(t[1]).None? then None
    else Some((Unescape(t[1]).value, 2))
  }

  lemma Digits(u: int)
    requires 0 <= u < 0x10000
    ensures 0x1000 * (u / 0x1000) + 0x100 * (u / 0x100 % 0x10) + 0x10 * (u / 0x10 % 0x10) + u % 0x10 == u
  {
    var a := u / 0x10;
    var b := a / 0x10;
    DivideTwice(u);
    DivideTwice(a);
    assert u == 0x10 * a + u % 0x10 && a == 0x10 * b + a % 0x10 && b == 0x10 * (b / 0x10) + b % 0x10;
  }

  lemma DivideTwice(u: int)
    requires 0 <= u
    ensures u / 0x100 == u / 0x10 / 0x10 && u / 0x1000 == u / 0x100 / 0x10
  {
  }

  lemma UnitRoundTrip(u: int, rest: string)
    requires 0 <= u < 0x10000
    ensures ReadUnit(UnitEscape(u) + rest) == Some(u)
  {
    HexDigitValue(u / 0x1000);
    HexDigitValue(u / 0x100 % 0x10);
    HexDigitValue(u / 0x10 % 0x10);
    HexDigitValue(u % 0x10);
    Digits(u);
    var t := UnitEscape(u) + rest;
    assert t[2..] == Hex4(u) + rest;
  }

  lemma UnicodeRoundTrip(c: char, rest: string)
    ensures ReadUnicode(UnicodeEscape(c) + rest) == Some((c, |UnicodeEscape(c)|))
  {
    var n := c as int;
    if n < 0x10000 {
      UnitRoundTrip(n, rest);
    } else {
      var high, low := HighSurrogate(n), LowSurrogate(n);
      var t := UnicodeEscape(c) + rest;
      assert t == UnitEscape(high) + (UnitEscape(low) + rest);
      assert t[6..] == UnitEscape(low) + rest;
      UnitRoundTrip(high, UnitEscape(low) + rest);
      UnitRoundTrip(low, rest);
    }
  }

  /** Whatever follows, one printed character is read back. */
  lemma CharRoundTrip(c: char, rest: string)
    ensures PrintChar(c) != "" && PrintChar(c)[0] != QUOTE
    ensures ReadChar(PrintChar(c) + rest) == Some((c, |PrintChar(c)|))
  {
    var t := PrintChar(c) + rest;
    if Letter(c).Some? {
      assert t[0] == BACKSLASH && t[1] == Letter(c).value;
    } else if c as int < 0x20 || c as int > 0x7F {
      UnicodeRoundTrip(c, rest);
      assert t[0] == BACKSLASH && t[1] == 'u';
    } else {
      assert t[0] == c;
    }
  }

  lemma PrintCharInverse()
    ensures Inverse(PrintChar, ReadChar)
  {
    forall c, rest ensures InverseAt(PrintChar, ReadChar, c, rest) {
      CharRoundTrip(c, rest);
    }
  }

  /** Every Unicode string is recovered from its printed form, whatever text comes after it. */
  lemma PrinterInvertible(s: string, rest: string)
    ensures Unquote(ReadChar, Quote(PrintChar, s) + rest) == Some((s, rest))
  {
    PrintCharInverse();
    QuoteRoundTrip(PrintChar, ReadChar, s, rest);
  }

  predicate Ascii(s: string) {
    forall i :: 0 <= i < |s| ==> s[i] as int <= 0x7F
  }

  lemma {:induction false} PrintsAscii(s: string)
    ensures Ascii(Quote(PrintChar, s))
  {
    if s != "" {
      var n := |s| - 1;
      PrintsAscii(s[..n]);
      var before, all := Quote(PrintChar, s[..n]), Quote(PrintChar, s);
      assert all == before[..|before| - 1] + PrintChar(s[n]) + [QUOTE];
      CharAscii(s[n]);
    }
  }

  lemma CharAscii(c: char)
    ensures Ascii(PrintChar(c))
  {
    if c as int >= 0x10000 {
      UnitAscii(HighSurrogate(c as int));
      UnitAscii(LowSurrogate(c as int));
    } else {
      UnitAscii(c as int);
    }
  }

  lemma UnitAscii(u: int)
    requires 0 <= u < 0x10000
    ensures Ascii(UnitEscape(u))
  {
  }

  // ---- the signing input --------------------------------------------------------------------

  /** The five signed fields of a receipt, each absent when it has no such string attribute. */
  datatype Receipt = Receipt(actionId: Option<string>, createdAt: Option<string>, receiptId: Option<string>,
                             service: Option<string>, ticketId: Option<string>)

  function Names(): (names: seq<string>)
    ensures |names| == 5
  {
    ["action_id", "created_at", "receipt_id", "service", "ticket_id"]
  }

  function Values(r: Receipt): (values: seq<Option<string>>)
    ensures |values| == 5
  {
    [r.actionId, r.createdAt, r.receiptId, r.service, r.ticketId]
  }

  predicate Complete(r: Receipt) {
    r.actionId.Some? && r.createdAt.Some? && r.receiptId.Some? && r.service.Some? && r.ticketId.Some?
  }

  function Texts(values: seq<Option<string>>): (texts: seq<string>)
    requires forall v :: v in values ==> v.Some?
    ensures |texts| == |values| && forall i :: 0 <= i < |values| ==> values[i] == Some(texts[i])
  {
    assert forall i :: 0 <= i < |values| ==> values[i] in values;
    seq(|values|, i requires 0 <= i < |values| => values[i].GetOr(""))
  }

  function Signed(names: seq<string>, values: seq<string>): string
    requires |names| == |values|
  {
    ['{'] + (Join(PrintChar, names, values) + ['}'])
  }

  method PrintMember(name: string, value: string) returns (part: string)
    ensures part == Member(PrintChar, name, value)
  {
    var left := AsciiJsonString(name);
    var right := AsciiJsonString(value);
    part := left + [':'] + right;
  }

  /** The first values are there, and are `seen`. */
  ghost predicate Reads(values: seq<Option<string>>, seen: seq<string>) {
    |seen| <= |values| && forall k :: 0 <= k < |seen| ==> values[k] == Some(seen[k])
  }

  lemma ReadsNext(values: seq<Option<string>>, seen: seq<string>)
    requires Reads(values, seen) && |seen| < |values| && values[|seen|].Some?
    ensures Reads(values, seen + [values[|seen|].value])
  {
  }

  lemma FirstMissing(values: seq<Option<string>>, seen: seq<string>)
    requires Reads(values, seen) && |seen| < |values| && values[|seen|].None?
    ensures !forall v :: v in values ==> v.Some?
    ensures forall i :: 0 <= i < |seen| ==> values[i].Some?
  {
    assert values[|seen|] in values;
  }

  lemma AllRead(values: seq<Option<string>>, seen: seq<string>)
    requires Reads(values, seen) && |seen| == |values|
    ensures (forall v :: v in values ==> v.Some?) && seen == Texts(values)
  {
  }

  lemma JoinSeen(names: seq<string>, seen: seq<string>, value: string)
    requires |seen| < |names|
    ensures Join(PrintChar, names[..|seen| + 1], seen + [value])
            == Join(PrintChar, names[..|seen|], seen) + (if |seen| == 0 then "" else [',']) + Member(PrintChar, names[|seen|], value)
  {
    assert names[..|seen| + 1][..|seen|] == names[..|seen|] && (seen + [value])[..|seen|] == seen;
  }

  /** `signing_input`: the text to sign, or the position of the first missing field. */
  method SigningInput(names: seq<string>, values: seq<Option<string>>) returns (input: Result<string, nat>)
    requires |names| == |values|
    ensures input.Ok? <==> forall v :: v in values ==> v.Some?
    ensures input.Ok? ==> input.value == Signed(names, Texts(values))
    ensures input.Err? ==> input.error < |values| && values[input.error] == None && forall i :: 0 <= i < input.error ==> values[i].Some?
  {
    var parts, seen := "", [];
    for i := 0 to |values|
      invariant |seen| == i && Reads(values, seen)
      invariant parts == Join(PrintChar, names[..i], seen)
    {
      if values[i].None? {
        FirstMissing(values, seen);
        return Err(i);
      }
      var part := PrintMember(names[i], values[i].value);
      ReadsNext(values, seen);
      JoinSeen(names, seen, values[i].value);
      parts := parts + (if i == 0 then "" else [',']) + part;
      seen := seen + [values[i].value];
    }
    assert names[..|values|] == names;
    AllRead(values, seen);
    return Ok(['{'] + (parts + ['}']));
  }

  method ReceiptSigningInput(r: Receipt) returns (input: Result<string, nat>)
    ensures input.Ok? <==> Complete(r)
    ensures Complete(r) ==> input == Ok(Signed(Names(), Texts(Values(r))))
  {
    input := SigningInput(Names(), Values(r));
    assert Values(r)[0] in Values(r) && Values(r)[1] in Values(r) && Values(r)[2] in Values(r) && Values(r)[3] in Values(r) && Values(r)[4] in Values(r);
  }

  lemma SignedInjective(names: seq<string>, a: seq<string>, b: seq<string>)
    requires |names| == |a| == |b| && Signed(names, a) == Signed(names, b)
    ensures a == b
  {
    PrintCharInverse();
    var x, y := Join(PrintChar, names, a) + ['}'], Join(PrintChar, names, b) + ['}'];
    assert Signed(names, a)[1..] == x && Signed(names, b)[1..] == y;
    JoinInjective(PrintChar, ReadChar, names, a, b, ['}']);
  }

  /** Equal signing inputs come from equal fields: a signature covers all five of them. */
  lemma SigningInputInjective(a: Receipt, b: Receipt)
    requires Complete(a) && Complete(b)
    requires Signed(Names(), Texts(Values(a))) == Signed(Names(), Texts(Values(b)))
    ensures a == b
  {
    var x, y := Texts(Values(a)), Texts(Values(b));
    SignedInjective(Names(), x, y);
    assert Values(a)[0] == Values(b)[0] && Values(a)[1] == Values(b)[1] && Values(a)[2] == Values(b)[2]
        && Values(a)[3] == Values(b)[3] && Values(a)[4] == Values(b)[4];
  }

  /** The signed text, member by member. */
  lemma SignedText(r: Receipt)
    requires Complete(r)
    ensures Signed(Names(), Texts(Values(r)))
         == ['{'] + (Member(PrintChar, "action_id", r.actionId.value)
          + ([','] + (Member(PrintChar, "created_at", r.createdAt.value)
          + ([','] + (Member(PrintChar, "receipt_id", r.receiptId.value)
          + ([','] + (Member(PrintChar, "service", r.service.value)
          + ([','] + (Member(PrintChar, "ticket_id", r.ticketId.value) + ['}'])))))))))
  {
    var names := Names();
    assert Values(r)[0] in Values(r) && Values(r)[1] in Values(r) && Values(r)[2] in Values(r) && Values(r)[3] in Values(r) && Values(r)[4] in Values(r);
    var values := Texts(Values(r));
    assert values[0] == r.actionId.value && values[1] == r.createdAt.value && values[2] == r.receiptId.value
        && values[3] == r.service.value && values[4] == r.ticketId.value;
    JoinAll(PrintChar, names, values, ['}']);
    FiveMembers(names, values);
  }

  lemma FiveMembers(names: seq<string>, values: seq<string>)
    requires |names| == |values| == 5
    ensures Rest(PrintChar, names, values, 0, ['}'])
         == Member(PrintChar, names[0], values[0])
          + ([','] + (Member(PrintChar, names[1], values[1])
          + ([','] + (Member(PrintChar, names[2], values[2])
          + ([','] + (Member(PrintChar, names[3], values[3])
          + ([','] + (Member(PrintChar, names[4], values[4]) + ['}']))))))))
  {
    var end: string := ['}'];
    assert Rest(PrintChar, names, values, 5, end) == end;
    assert Rest(PrintChar, names, values, 4, end) == [','] + (Member(PrintChar, names[4], values[4]) + end);
    assert Rest(PrintChar, names, values, 3, end) == [','] + (Member(PrintChar, names[3], values[3]) + Rest(PrintChar, names, values, 4, end));
    assert Rest(PrintChar, names, values, 2, end) == [','] + (Member(PrintChar, names[2], values[2]) + Rest(PrintChar, names, values, 3, end));
    assert Rest(PrintChar, names, values, 1, end) == [','] + (Member(PrintChar, names[1], values[1]) + Rest(PrintChar, names, values, 2, end));
    assert Rest(PrintChar, names, values, 0, end) == "" + (Member(PrintChar, names[0], values[0]) + Rest(PrintChar, names, values, 1, end));
  }

  lemma PlainChar(c: char)
    requires 0x20 <= c as int <= 0x7F && c != QUOTE && c != BACKSLASH
    ensures PrintChar(c) == [c]
  {
  }

  /** Printable ASCII other than the quote and the backslash is printed as it is. */
  lemma {:induction false} PlainText(s: string)
    requires forall i :: 0 <= i < |s| ==> 0x20 <= s[i] as int <= 0x7F && s[i] != QUOTE && s[i] != BACKSLASH
    ensures PrintAll(PrintChar, s) == s
  {
    if s != "" {
      var n := |s| - 1;
      PlainText(s[..n]);
      PlainChar(s[n]);
      assert PrintAll(PrintChar, s) == s[..n] + [s[n]];
    }
  }

  /** The characters with an escape of their own, and the form of all the others. */
  lemma EscapesMean(c: char)
    ensures PrintChar('\"') == ['\\', '\"'] && PrintChar('\\') == ['\\', '\\']
    ensures PrintChar('\n') == ['\\', 'n'] && PrintChar('\r') == ['\\', 'r'] && PrintChar('\t') == ['\\', 't']
    ensures PrintChar(0x08 as char) == ['\\', 'b'] && PrintChar(0x0C as char) == ['\\', 'f']
    ensures c as int > 0x7F || (c as int < 0x20 && c !in {'\n', '\r', '\t', 0x08 as char, 0x0C as char}) ==>
      && |PrintChar(c)| == (if c as int < 0x10000 then 6 else 12) && PrintChar(c)[0] == '\\' && PrintChar(c)[1] == 'u'
      && forall i :: 2 <= i < 6 ==> '0' <= PrintChar(c)[i] <= '9' || 'a' <= PrintChar(c)[i] <= 'f'
  {
    if c as int > 0x7F || c as int < 0x20 {
      var u := if c as int < 0x10000 then c as int else HighSurrogate(c as int);
      forall i | 2 <= i < 6 && |UnicodeEscape(c)| >= 6 ensures '0' <= UnicodeEscape(c)[i] <= '9' || 'a' <= UnicodeEscape(c)[i] <= 'f' {
        assert UnicodeEscape(c)[i] == UnitEscape(u)[2..][i - 2] == Hex4(u)[i - 2];
      }
    }
  }
}
