/** Python's `json.dumps` with its default settings (separators ", " and
    ": ", `ensure_ascii=True`), used by the backend to put each event of
    the match stream on the wire. The property that matters downstream: the
    text consists of printable ASCII only, so it never contains a line
    break and cannot be confused with the blank line that ends a
    server-sent event. */
module JsonDump {
  import opened Text
  import opened Json

  predicate Printable(s: string) {
    forall i :: 0 <= i < |s| ==> ' ' <= s[i] <= '~'
  }

  lemma PrintableConcat(a: string, b: string)
    requires Printable(a) && Printable(b)
    ensures Printable(a + b)
  {
    forall i | 0 <= i < |a + b|
      ensures ' ' <= (a + b)[i] <= '~'
    {
      if i >= |a| {
        assert (a + b)[i] == b[i - |a|];
      }
    }
  }

  lemma {:induction false} PrintableJoin(parts: seq<string>, sep: string)
    requires Printable(sep)
    requires forall k :: 0 <= k < |parts| ==> Printable(parts[k])
    ensures Printable(Join(parts, sep))
  {
    if |parts| > 1 {
      PrintableJoin(parts[1..], sep);
      PrintableConcat(parts[0], sep);
      PrintableConcat(parts[0] + sep, Join(parts[1..], sep));
    }
  }

  /** `'\\u{0:04x}'.format(v)`: a backslash-u escape with four lower-case
      hexadecimal digits. */
  function UnicodeEscape(v: nat): (r: string)
    requires v < 0x10000
    ensures |r| == 6 && Printable(r)
  {
    ['\\', 'u', HexDigit(v / 4096), HexDigit(v / 256 % 16), HexDigit(v / 16 % 16), HexDigit(v % 16)]
  }

  /** The escape of one character inside a JSON string literal. */
  function EscapeChar(c: char): (r: string)
    ensures Printable(r) && r != []
  {
    var n := c as int;
    if c == '"' then "\\\""
    else if c == '\\' then "\\\\"
    else if c == '\n' then "\\n"
    else if c == '\r' then "\\r"
    else if c == '\t' then "\\t"
    else if n == 8 then "\\b"
    else if n == 12 then "\\f"
    else if ' ' <= c <= '~' then [c]
    else if n < 0x10000 then UnicodeEscape(n)
    else
      // a character outside the Basic Multilingual Plane becomes a UTF-16
      // surrogate pair
      var v := n - 0x10000;
      var hi := UnicodeEscape(0xd800 + v / 0x400);
      var lo := UnicodeEscape(0xdc00 + v % 0x400);
      PrintableConcat(hi, lo);
      hi + lo
  }

  function EscapeString(s: string): (r: string)
    ensures Printable(r)
  {
    if s == [] then ""
    else
      var head := EscapeChar(s[0]);
      var tail := EscapeString(s[1..]);
      PrintableConcat(head, tail);
      head + tail
  }

  function Quote(s: string): (r: string)
    ensures Printable(r) && |r| >= 2 && r[0] == '"' && r[|r| - 1] == '"'
  {
    var e := EscapeString(s);
    PrintableConcat("\"", e);
    PrintableConcat("\"" + e, "\"");
    "\"" + e + "\""
  }

  /** `json.dumps(j)`: printable ASCII only, never empty; an object's text
      begins with '{' and ends with '}'. */
  function Dumps(j: Json): (r: string)
    ensures Printable(r) && r != []
    ensures j.Obj? ==> r[0] == '{' && r[|r| - 1] == '}'
    ensures j.Arr? ==> r[0] == '[' && r[|r| - 1] == ']'
    decreases j
  {
    match j
    case Null => "null"
    case Bool(b) => if b then "true" else "false"
    case Num(n) =>
      var t := IntToString(n);
      assert Printable(t) by {
        forall i | 0 <= i < |t| ensures ' ' <= t[i] <= '~' {
          if i > 0 { assert '0' <= t[i] <= '9'; }
        }
      }
      t
    case Str(s) => Quote(s)
    case Arr(items) =>
      var parts := seq(|items|, i requires 0 <= i < |items| => Dumps(items[i]));
      Bracket('[', Join(parts, ", "), ']', parts)
    case Obj(fields) =>
      var parts := seq(|fields|, i requires 0 <= i < |fields| =>
                         Quote(fields[i].0) + ": " + Dumps(fields[i].1));
      assert forall k :: 0 <= k < |parts| ==> Printable(parts[k]) by {
        forall k | 0 <= k < |parts| ensures Printable(parts[k]) {
          PrintableConcat(Quote(fields[k].0), ": ");
          PrintableConcat(Quote(fields[k].0) + ": ", Dumps(fields[k].1));
        }
      }
      Bracket('{', Join(parts, ", "), '}', parts)
  }

  /** Wraps the joined parts of a list or an object in its brackets. */
  function Bracket(open: char, body: string, close: char, ghost parts: seq<string>): (r: string)
    requires ' ' <= open <= '~' && ' ' <= close <= '~'
    requires body == Join(parts, ", ")
    requires forall k :: 0 <= k < |parts| ==> Printable(parts[k])
    ensures Printable(r) && |r| >= 2 && r[0] == open && r[|r| - 1] == close
  {
    PrintableJoin(parts, ", ");
    PrintableConcat([open], body);
    PrintableConcat([open] + body, [close]);
    [open] + body + [close]
  }

  lemma DumpsHasNoLineBreak(j: Json)
    ensures '\n' !in Dumps(j)
  {
  }
}
