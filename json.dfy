/**
 * The decoded documents the scripts work on: what json.loads (or pymongo)
 * hands to Python. JSON text itself is not modelled; a line that does not
 * parse is an input flag (an Option<Json> that is None).
 */
module Json {
  import opened Text

  datatype Json =
    | JNull                                  // Python None
    | JBool(b: bool)
    | JInt(i: int)                           // Python int, or long when outside the machine range
    | JFloat(text: string)                   // a float, carried as the text str() gives for it
    | JString(s: string)
    | JArray(items: seq<Json>)               // a list
    | JObject(fields: seq<(string, Json)>)   // a dict, in its iteration order

  /** sys.maxint on the 64-bit platforms the scripts run on. */
  const MaxInt: int := 0x7fff_ffff_ffff_ffff

  /** json.loads gives an `int` inside [-maxint-1, maxint] and a `long` outside it. */
  predicate IsPyInt(i: int)
  {
    -MaxInt - 1 <= i <= MaxInt
  }

  /** isinstance(v, dict) */
  predicate IsDict(v: Json)
  {
    v.JObject?
  }

  /** isinstance(v, list) */
  predicate IsList(v: Json)
  {
    v.JArray?
  }

  /** Python truthiness: None, False, 0, 0.0, "", [] and {} are false. */
  predicate Truthy(v: Json)
  {
    match v
    case JNull => false
    case JBool(b) => b
    case JInt(i) => i != 0
    case JFloat(t) => t != "0.0" && t != "-0.0"
    case JString(s) => s != ""
    case JArray(items) => items != []
    case JObject(fields) => fields != []
  }

  /** `key in d` for a dict. */
  predicate HasKey(fields: seq<(string, Json)>, key: string)
  {
    exists i :: 0 <= i < |fields| && fields[i].0 == key
  }

  /** d.get(key): the value stored under key, None when absent. */
  function Get(fields: seq<(string, Json)>, key: string): (r: Option<Json>)
    ensures r.Some? <==> HasKey(fields, key)
    ensures r.Some? ==> exists i :: 0 <= i < |fields| && fields[i] == (key, r.value)
  {
    if fields == [] then None
    else if fields[0].0 == key then
      assert fields[0] == (key, fields[0].1);
      Some(fields[0].1)
    else
      var r := Get(fields[1..], key);
      assert forall i :: 0 < i < |fields| ==> fields[i] == fields[1..][i - 1];
      assert HasKey(fields, key) ==> HasKey(fields[1..], key) by {
        if HasKey(fields, key) {
          var i :| 0 <= i < |fields| && fields[i].0 == key;
          assert fields[1..][i - 1].0 == key;
        }
      }
      r
  }

  /** Every character is ASCII, the only ones Python 2's default codec encodes. */
  predicate IsAscii(s: string)
  {
    forall k :: 0 <= k < |s| ==> s[k] < 128 as char
  }

  /**
   * str(v) raises UnicodeEncodeError: the value is a unicode string holding a
   * character the ASCII default codec cannot encode. Containers never
   * raise, because their text is built from repr, which escapes.
   */
  predicate StrRaises(v: Json)
  {
    v.JString? && !IsAscii(v.s)
  }

  /**
   * Python 2 str(v) where it does not raise, and unicode(v) always: the text
   * the scripts compare, measure and sanitise.
   */
  function Str(v: Json): string
    decreases v, 2, 0
  {
    match v
    case JNull => "None"
    case JBool(b) => if b then "True" else "False"
    case JInt(i) => IntToString(i)
    case JFloat(t) => t
    case JString(s) => s
    case JArray(_) => "[" + ReprItems(v, 0) + "]"
    case JObject(_) => "{" + ReprFields(v, 0) + "}"
  }

  /** Python 2 repr(v), as it appears inside the str() of a container. */
  function Repr(v: Json): string
    decreases v, 3, 0
  {
    match v
    case JInt(i) => IntToString(i) + (if IsPyInt(i) then "" else "L")
    case JString(s) => ReprText(s)
    case _ => Str(v)
  }

  function ReprItems(v: Json, i: nat): string
    requires v.JArray?
    decreases v, 1, |v.items| - i
  {
    if i >= |v.items| then ""
    else (if i > 0 then ", " else "") + Repr(v.items[i]) + ReprItems(v, i + 1)
  }

  function ReprFields(v: Json, i: nat): string
    requires v.JObject?
    decreases v, 1, |v.fields| - i
  {
    if i >= |v.fields| then ""
    else
      (if i > 0 then ", " else "") + ReprText(v.fields[i].0) + ": " + Repr(v.fields[i].1)
      + ReprFields(v, i + 1)
  }

  // ---------------------------------------------------------------------------
  // repr of a unicode string
  // ---------------------------------------------------------------------------

  /** The lower-case hexadecimal digits of n, padded to w places. */
  function Hex(n: nat, w: nat): (r: string)
    ensures |r| == w && IsAscii(r)
  {
    if w == 0 then ""
    else Hex(n / 16, w - 1) + [HexDigit(n % 16)]
  }

  /** One lower-case hexadecimal digit. */
  function HexDigit(d: nat): (c: char)
    requires d < 16
    ensures c < 128 as char
  {
    if d < 10 then ('0' as int + d) as char else ('a' as int + d - 10) as char
  }

  /** The quote repr uses: a double quote when the text holds a single quote and no double quote. */
  function QuoteFor(s: string): char
  {
    if '\'' in s && '"' !in s then '"' else '\''
  }

  /**
   * One character inside the quotes: the quote and the backslash are
   * escaped, tab, newline and return by name, other control characters and
   * everything past ASCII by its code point.
   */
  function EscapeChar(c: char, q: char): (r: string)
    requires q < 128 as char
    ensures IsAscii(r) && |r| >= 1
  {
    if c == q || c == '\\' then ['\\', c]
    else if c == '\t' then "\\t"
    else if c == '\n' then "\\n"
    else if c == '\r' then "\\r"
    else if c < ' ' || c >= 127 as char then
      if c as int < 0x100 then "\\x" + Hex(c as int, 2)
      else if c as int < 0x1_0000 then "\\u" + Hex(c as int, 4)
      else "\\U" + Hex(c as int, 8)
    else [c]
  }

  function EscapeText(s: string, q: char): (r: string)
    requires q < 128 as char
  {
    if s == [] then [] else EscapeChar(s[0], q) + EscapeText(s[1..], q)
  }

  /** repr(u'...'): u, the quote, the escaped text, the quote. */
  function ReprText(s: string): string
  {
    var q := QuoteFor(s);
    "u" + [q] + EscapeText(s, q) + [q]
  }

  /** The escaped text is ASCII, whatever the input holds. */
  lemma {:induction false} EscapeTextAscii(s: string, q: char)
    requires q < 128 as char
    ensures IsAscii(EscapeText(s, q))
  {
    if s != [] {
      EscapeTextAscii(s[1..], q);
      var a := EscapeChar(s[0], q);
      var b := EscapeText(s[1..], q);
      assert forall k :: 0 <= k < |a + b| ==> (a + b)[k] == if k < |a| then a[k] else b[k - |a|];
    }
  }

  /**
   * repr of a unicode string is ASCII, so the str() of a list or dict of
   * strings never raises, while str() of the string itself raises exactly
   * when it holds a character past ASCII.
   */
  lemma ReprTextAscii(s: string)
    ensures IsAscii(ReprText(s))
    ensures StrRaises(JString(s)) <==> exists k :: 0 <= k < |s| && s[k] >= 128 as char
  {
    var q := QuoteFor(s);
    EscapeTextAscii(s, q);
    var e := EscapeText(s, q);
    var r := ReprText(s);
    assert r == "u" + [q] + e + [q];
    forall k | 0 <= k < |r| ensures r[k] < 128 as char {
      if 2 <= k < |r| - 1 {
        assert r[k] == e[k - 2];
      }
    }
  }
}
