/** JSON values as both halves of the system see them: Python dictionaries
    produced by `json.loads` in the backend and plain JavaScript objects in
    the front end. Numbers are integers (floating point is not modelled).
    An object is the ordered list of its entries, as both languages keep
    insertion order; keys are distinct in every object the system builds,
    and lookups return the first entry with the key. */
module Json {
  import opened Wrappers
  import opened Text

  datatype Json =
    | Null
    | Bool(b: bool)
    | Num(n: int)
    | Str(s: string)
    | Arr(items: seq<Json>)
    | Obj(fields: seq<(string, Json)>)
  {
    predicate IsScalar() {
      !Arr? && !Obj?
    }
  }

  type Fields = seq<(string, Json)>

  predicate HasKey(o: Fields, k: string) {
    exists i :: 0 <= i < |o| && o[i].0 == k
  }

  /** `k in d` / `d[k]` in Python, `o.k` in JavaScript. */
  function Lookup(o: Fields, k: string): (r: Option<Json>)
    ensures r.Some? <==> HasKey(o, k)
    ensures r.Some? ==> exists i :: 0 <= i < |o| && o[i] == (k, r.value)
  {
    if o == [] then None
    else if o[0].0 == k then Some(o[0].1)
    else
      assert forall i :: 1 <= i < |o| ==> o[i] == o[1..][i - 1];
      Lookup(o[1..], k)
  }

  /** Python `d.get(k)` (None when absent); in JavaScript an absent property
      reads as `undefined`, which the model also writes `Null`. */
  function Get(o: Fields, k: string): Json {
    match Lookup(o, k)
    case Some(v) => v
    case None => Null
  }

  /** Reading property `k` of an arbitrary value: only objects have entries. */
  function Member(j: Json, k: string): Json {
    if j.Obj? then Get(j.fields, k) else Null
  }

  lemma SetTwiceElsewhere(o: Fields, k1: string, v1: Json, k2: string, v2: Json, k: string)
    requires k != k1 && k != k2
    ensures Lookup(Set(Set(o, k1, v1), k2, v2), k) == Lookup(o, k)
  {
  }

  /** JavaScript's `{...x}` for a value that is not null or undefined: an
      object's own entries, a string's characters and an array's elements
      under their indices "0", "1", …, and nothing for a number or a
      boolean. */
  function Spread(x: Json): Fields {
    match x
    case Obj(fields) => fields
    case Str(s) => Indexed(Chars(s), 0)
    case Arr(items) => Indexed(items, 0)
    case _ => []
  }

  /** A string's characters as one-character strings. */
  function Chars(s: string): seq<Json> {
    if s == [] then [] else [Str([s[0]])] + Chars(s[1..])
  }

  /** The values under their positions, counted from `from`. */
  function Indexed(xs: seq<Json>, from: nat): Fields {
    if xs == [] then [] else [(NatToString(from), xs[0])] + Indexed(xs[1..], from + 1)
  }

  lemma {:induction false} IndexedHasOnlyDigitKeys(xs: seq<Json>, from: nat, k: string)
    requires !AllDigits(k)
    ensures !HasKey(Indexed(xs, from), k)
  {
    if xs != [] {
      IndexedHasOnlyDigitKeys(xs[1..], from + 1, k);
      var r := Indexed(xs, from);
      assert r == [(NatToString(from), xs[0])] + Indexed(xs[1..], from + 1);
      assert NatToString(from) != k;
      forall i | 1 <= i < |r| ensures r[i].0 != k {
        assert r[i] == Indexed(xs[1..], from + 1)[i - 1];
      }
    }
  }

  /** The keys of a spread string or array are digit strings, so it has no
      named entry. */
  lemma SpreadHasOnlyIndices(x: Json, k: string)
    requires !x.Obj? && !AllDigits(k)
    ensures !HasKey(Spread(x), k)
  {
    match x
    case Str(s) => IndexedHasOnlyDigitKeys(Chars(s), 0, k);
    case Arr(items) => IndexedHasOnlyDigitKeys(items, 0, k);
    case _ =>
  }

  /** `{...o, [k]: v}` in JavaScript and `d[k] = v` in Python: an existing
      entry keeps its position and takes the new value, a new key is added
      at the end. */
  function Set(o: Fields, k: string, v: Json): (r: Fields)
    ensures Lookup(r, k) == Some(v)
    ensures forall k' {:trigger Lookup(r, k')} :: k' != k ==> Lookup(r, k') == Lookup(o, k')
    ensures |r| == if HasKey(o, k) then |o| else |o| + 1
    ensures forall i {:trigger r[i]} :: 0 <= i < |o| ==> r[i].0 == o[i].0
    ensures !HasKey(o, k) ==> r[|o|] == (k, v)
  {
    if o == [] then [(k, v)]
    else if o[0].0 == k then [(k, v)] + o[1..]
    else
      var rest := Set(o[1..], k, v);
      HasKeyTail(o, k);
      [o[0]] + rest
  }

  lemma HasKeyTail(o: Fields, k: string)
    requires o != [] && o[0].0 != k
    ensures HasKey(o, k) <==> HasKey(o[1..], k)
  {
    if HasKey(o, k) {
      var i :| 0 <= i < |o| && o[i].0 == k;
      assert o[1..][i - 1].0 == k;
    }
    if HasKey(o[1..], k) {
      var i :| 0 <= i < |o[1..]| && o[1..][i].0 == k;
      assert o[i + 1].0 == k;
    }
  }

  // ---------------------------------------------------------------------
  // Truthiness
  // ---------------------------------------------------------------------

  /** Python's `bool(x)`: empty strings, lists and dicts, zero, False and
      None are false. */
  predicate PyTruthy(j: Json) {
    match j
    case Null => false
    case Bool(b) => b
    case Num(n) => n != 0
    case Str(s) => s != ""
    case Arr(items) => items != []
    case Obj(fields) => fields != []
  }

  /** JavaScript's `!!x`: every array and object is true. */
  predicate JsTruthy(j: Json) {
    match j
    case Null => false
    case Bool(b) => b
    case Num(n) => n != 0
    case Str(s) => s != ""
    case Arr(_) => true
    case Obj(_) => true
  }

  // ---------------------------------------------------------------------
  // Rendering as text
  // ---------------------------------------------------------------------

  /** Python `str(x)`: a string is itself, a list or dict is written with
      the `repr` of its members. */
  function PyStr(j: Json): (r: string)
    ensures j.Arr? ==> |r| >= 2 && r[0] == '[' && r[|r| - 1] == ']'
    ensures j.Obj? ==> |r| >= 2 && r[0] == '{' && r[|r| - 1] == '}'
    decreases j, 0
  {
    match j
    case Null => "None"
    case Bool(b) => if b then "True" else "False"
    case Num(n) => IntToString(n)
    case Str(s) => s
    case Arr(items) =>
      "[" + Join(seq(|items|, i requires 0 <= i < |items| => PyRepr(items[i])), ", ") + "]"
    case Obj(fields) =>
      "{" + Join(seq(|fields|, i requires 0 <= i < |fields| =>
                       PyQuote(fields[i].0) + ": " + PyRepr(fields[i].1)), ", ") + "}"
  }

  /** Python `repr(x)`: differs from `str(x)` only for strings, which are
      quoted. */
  function PyRepr(j: Json): string
    decreases j, 1
  {
    if j.Str? then PyQuote(j.s) else PyStr(j)
  }

  /** `repr` of a string: single quotes unless the text holds a single quote
      and no double quote. */
  function PyQuote(s: string): (r: string)
    ensures |r| >= 2
  {
    if '\'' in s && '"' !in s then "\"" + PyEscape(s, '"') + "\""
    else "'" + PyEscape(s, '\'') + "'"
  }

  /** The characters up to U+00FF that Python does not count as printable:
      the C0 controls, DEL, the C1 controls, the no-break space and the
      soft hyphen. */
  predicate Unprintable(c: char) {
    var n := c as int;
    n < 0x20 || n == 0x7f || 0x80 <= n <= 0xa0 || n == 0xad
  }

  /** The body of a string's `repr`: a backslash, the quote in use, line
      feed, carriage return and tab are written as backslash escapes and
      every other unprintable character as `\xNN` in lower-case hexadecimal;
      what remains is copied. */
  function PyEscape(s: string, quote: char): (r: string)
    requires !Unprintable(quote)
    ensures forall i :: 0 <= i < |r| ==> !Unprintable(r[i])
  {
    if s == [] then ""
    else
      var c := s[0];
      (if c == '\\' then "\\\\"
       else if c == quote then ['\\', quote]
       else if c == '\n' then "\\n"
       else if c == '\r' then "\\r"
       else if c == '\t' then "\\t"
       else if Unprintable(c) then ['\\', 'x', HexDigit(c as int / 16), HexDigit(c as int % 16)]
       else [c])
      + PyEscape(s[1..], quote)
  }

  /** `repr` writes a control character in hexadecimal. */
  lemma ReprOfControl()
    ensures PyQuote(['a', '\U{1}']) == "'a\\x01'"
  {
    assert HexDigit(0) == '0' && HexDigit(1) == '1';
    assert PyEscape(['\U{1}'], '\'') == "\\x01";
    assert PyEscape(['a', '\U{1}'], '\'') == "a\\x01";
  }

  /** `repr` writes a line feed as a backslash escape. */
  lemma ReprOfLineFeed()
    ensures PyQuote("a\n") == "'a\\n'"
  {
    assert PyEscape("\n", '\'') == "\\n";
  }

  /** `repr` puts a text holding only a single quote in double quotes. */
  lemma ReprOfApostrophe()
    ensures PyQuote("it's") == "\"it's\""
  {
    assert PyEscape("s", '"') == "s";
    assert PyEscape("'s", '"') == "'s";
    assert PyEscape("t's", '"') == "t's";
  }

  /** JavaScript `String(x)` (also what a template literal inserts). An
      array joins its elements with "," and writes null as ""; every other
      object is "[object Object]". */
  function JsString(j: Json): string {
    match j
    case Null => "null"
    case Bool(b) => if b then "true" else "false"
    case Num(n) => IntToString(n)
    case Str(s) => s
    case Arr(items) =>
      Join(seq(|items|, i requires 0 <= i < |items| =>
                 if items[i].Null? then "" else JsString(items[i])), ",")
    case Obj(_) => "[object Object]"
  }
}
