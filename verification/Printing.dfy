/** Printing character by character and member by member, for any printer of one character. */
module Printing {
  import opened Prelude

  /** How one character is printed, and how one is read: the character and the text it took. */
  type Printer = char -> string
  type Reader = string -> Option<(char, nat)>

  function PrintAll(print1: Printer, s: string): string {
    if s == "" then "" else PrintAll(print1, s[..|s| - 1]) + print1(s[|s| - 1])
  }

  function Quote(print1: Printer, s: string): string {
    ['\"'] + PrintAll(print1, s) + ['\"']
  }

  /** The body of a quoted string up to its closing quote, and the text after the quote. */
  function ReadBody(read1: Reader, t: string): Option<(string, string)>
    decreases |t|
  {
    if t == "" then None
    else if t[0] == '\"' then Some(("", t[1..]))
    else
      var r := read1(t);
      if r.None? || r.value.1 == 0 || r.value.1 > |t| then None
      else
        var tail := ReadBody(read1, t[r.value.1..]);
        if tail.None? then None else Some(([r.value.0] + tail.value.0, tail.value.1))
  }

  function Unquote(read1: Reader, t: string): Option<(string, string)> {
    if t == "" || t[0] != '\"' then None else ReadBody(read1, t[1..])
  }

  /** The reader takes back what the printer wrote, whatever text follows. */
  ghost predicate Inverse(print1: Printer, read1: Reader) {
    forall c, rest :: InverseAt(print1, read1, c, rest)
  }

  ghost predicate InverseAt(print1: Printer, read1: Reader, c: char, rest: string) {
    && print1(c) != "" && print1(c)[0] != '\"'
    && read1(print1(c) + rest) == Some((c, |print1(c)|))
  }

  lemma {:induction false} PrintSplit(print1: Printer, s: string, t: string)
    ensures PrintAll(print1, s + t) == PrintAll(print1, s) + PrintAll(print1, t)
  {
    if t == "" {
      assert s + t == s;
    } else {
      var n := |t| - 1;
      assert (s + t)[..|s| + n] == s + t[..n];
      PrintSplit(print1, s, t[..n]);
    }
  }

  lemma {:induction false} BodyRoundTrip(print1: Printer, read1: Reader, s: string, rest: string)
    requires Inverse(print1, read1)
    ensures ReadBody(read1, PrintAll(print1, s) + (['\"'] + rest)) == Some((s, rest))
  {
    var t := PrintAll(print1, s) + (['\"'] + rest);
    if s == "" {
      assert t[1..] == rest;
    } else {
      var c, tail := s[0], s[1..];
      var after := PrintAll(print1, tail) + (['\"'] + rest);
      assert s == [c] + tail && [c][..0] == "";
      PrintSplit(print1, [c], tail);
      assert PrintAll(print1, [c]) == print1(c);
      assert t == print1(c) + after;
      assert InverseAt(print1, read1, c, after);
      assert t[0] == print1(c)[0] && t[|print1(c)|..] == after;
      BodyRoundTrip(print1, read1, tail, rest);
    }
  }

  lemma QuoteRoundTrip(print1: Printer, read1: Reader, s: string, rest: string)
    requires Inverse(print1, read1)
    ensures Unquote(read1, Quote(print1, s) + rest) == Some((s, rest))
  {
    BodyRoundTrip(print1, read1, s, rest);
    var t := Quote(print1, s) + rest;
    assert t[1..] == PrintAll(print1, s) + (['\"'] + rest);
  }

  // ---- objects of string members ------------------------------------------------------------

  function Member(print1: Printer, name: string, value: string): string {
    Quote(print1, name) + [':'] + Quote(print1, value)
  }

  /** Members joined by commas. */
  function Join(print1: Printer, names: seq<string>, values: seq<string>): string
    requires |names| == |values|
  {
    if names == [] then ""
    else
      var n := |names| - 1;
      Join(print1, names[..n], values[..n]) + (if n == 0 then "" else [',']) + Member(print1, names[n], values[n])
  }

  lemma MemberHead(print1: Printer, read1: Reader, name: string, a: string, b: string, t: string, u: string)
    requires Inverse(print1, read1)
    requires Member(print1, name, a) + t == Member(print1, name, b) + u
    ensures a == b && t == u
  {
    var x, y := Quote(print1, a) + t, Quote(print1, b) + u;
    var start := Quote(print1, name) + [':'];
    assert Member(print1, name, a) + t == start + x && Member(print1, name, b) + u == start + y;
    assert (start + x)[|start|..] == x && (start + y)[|start|..] == y;
    QuoteRoundTrip(print1, read1, a, t);
    QuoteRoundTrip(print1, read1, b, u);
  }

  /** The members from the `k`th on, with their commas, and `end`. */
  function Rest(print1: Printer, names: seq<string>, values: seq<string>, k: nat, end: string): string
    requires |names| == |values| && k <= |names|
    decreases |names| - k
  {
    if k == |names| then end
    else (if k == 0 then "" else [',']) + (Member(print1, names[k], values[k]) + Rest(print1, names, values, k + 1, end))
  }

  lemma Regroup(a: string, b: string, c: string, d: string)
    ensures a + (b + (c + d)) == a + b + c + d
  {
  }

  lemma JoinNext(print1: Printer, names: seq<string>, values: seq<string>, k: nat)
    requires |names| == |values| && k < |names|
    ensures Join(print1, names[..k + 1], values[..k + 1])
            == Join(print1, names[..k], values[..k]) + (if k == 0 then "" else [',']) + Member(print1, names[k], values[k])
  {
    assert names[..k + 1][..k] == names[..k] && values[..k + 1][..k] == values[..k];
  }

  lemma {:induction false} JoinRest(print1: Printer, names: seq<string>, values: seq<string>, k: nat, end: string)
    requires |names| == |values| && k <= |names|
    ensures Join(print1, names[..k], values[..k]) + Rest(print1, names, values, k, end) == Join(print1, names, values) + end
    decreases |names| - k
  {
    if k == |names| {
      assert names[..k] == names && values[..k] == values;
    } else {
      JoinRest(print1, names, values, k + 1, end);
      JoinNext(print1, names, values, k);
      Regroup(Join(print1, names[..k], values[..k]), if k == 0 then "" else [','], Member(print1, names[k], values[k]),
              Rest(print1, names, values, k + 1, end));
    }
  }

  lemma {:induction false} RestInjective(print1: Printer, read1: Reader, names: seq<string>, a: seq<string>, b: seq<string>, k: nat, end: string)
    requires Inverse(print1, read1)
    requires |names| == |a| == |b| && k <= |names|
    requires Rest(print1, names, a, k, end) == Rest(print1, names, b, k, end)
    ensures a[k..] == b[k..]
    decreases |names| - k
  {
    if k < |names| {
      var comma := if k == 0 then "" else [','];
      var x := Member(print1, names[k], a[k]) + Rest(print1, names, a, k + 1, end);
      var y := Member(print1, names[k], b[k]) + Rest(print1, names, b, k + 1, end);
      assert (comma + x)[|comma|..] == x && (comma + y)[|comma|..] == y;
      MemberHead(print1, read1, names[k], a[k], b[k], Rest(print1, names, a, k + 1, end), Rest(print1, names, b, k + 1, end));
      RestInjective(print1, read1, names, a, b, k + 1, end);
      assert a[k..] == [a[k]] + a[k + 1..] && b[k..] == [b[k]] + b[k + 1..];
    }
  }

  lemma JoinAll(print1: Printer, names: seq<string>, values: seq<string>, end: string)
    requires |names| == |values|
    ensures Join(print1, names, values) + end == Rest(print1, names, values, 0, end)
  {
    JoinRest(print1, names, values, 0, end);
    var none := Join(print1, names[..0], values[..0]);
    assert none == "";
    assert none + Rest(print1, names, values, 0, end) == Rest(print1, names, values, 0, end);
  }

  /** With fixed names the printed object determines its values. */
  lemma JoinInjective(print1: Printer, read1: Reader, names: seq<string>, a: seq<string>, b: seq<string>, end: string)
    requires Inverse(print1, read1)
    requires |names| == |a| == |b|
    requires Join(print1, names, a) + end == Join(print1, names, b) + end
    ensures a == b
  {
    JoinAll(print1, names, a, end);
    JoinAll(print1, names, b, end);
    RestInjective(print1, read1, names, a, b, 0, end);
    assert a[0..] == a && b[0..] == b;
  }
}
