/**
 * Text helpers shared by every module: the Option and Result wrappers that
 * stand for Python's None and raised exceptions, and the string operations
 * the scripts use (re.sub over [^0-9a-zA-Z_], str.split, str.join,
 * str.strip, str.startswith/endswith, the `in` substring test, str(int)
 * and int(str)).
 */
module Text {

  datatype Option<T> = None | Some(value: T)

  /** A Python call that either returns a value or raises (the message names the exception). */
  datatype Result<T> = Ok(value: T) | Err(error: string)

  // ---------------------------------------------------------------------------
  // Characters
  // ---------------------------------------------------------------------------

  /** The class [0-9a-zA-Z_] of the scripts' regular expressions. */
  predicate IsWordChar(c: char)
  {
    ('0' <= c <= '9') || ('a' <= c <= 'z') || ('A' <= c <= 'Z') || c == '_'
  }

  /** [0-9a-z_]: what a sanitised name is made of. */
  predicate IsLowerWordChar(c: char)
  {
    ('0' <= c <= '9') || ('a' <= c <= 'z') || c == '_'
  }

  predicate IsDigit(c: char)
  {
    '0' <= c <= '9'
  }

  /** ASCII lower-casing (the only characters the scripts lower-case are ASCII). */
  function LowerChar(c: char): char
  {
    if 'A' <= c <= 'Z' then (c as int + 32) as char else c
  }

  function Lower(s: string): (r: string)
    ensures |r| == |s|
    ensures forall i :: 0 <= i < |s| ==> r[i] == LowerChar(s[i])
  {
    seq(|s|, i requires 0 <= i < |s| => LowerChar(s[i]))
  }

  /** One character of re.sub("[^0-9a-zA-Z_]", '_', s).lower(). */
  function SanitiseChar(c: char): (r: char)
    ensures IsLowerWordChar(r)
    ensures IsWordChar(c) ==> r == LowerChar(c)
    ensures !IsWordChar(c) ==> r == '_'
  {
    if IsWordChar(c) then LowerChar(c) else '_'
  }

  /** re.sub("[^0-9a-zA-Z_]", '_', s).lower() */
  function Sanitise(s: string): (r: string)
    ensures |r| == |s|
    ensures forall i :: 0 <= i < |r| ==> IsLowerWordChar(r[i])
    ensures forall i :: 0 <= i < |s| ==> r[i] == SanitiseChar(s[i])
  {
    seq(|s|, i requires 0 <= i < |s| => SanitiseChar(s[i]))
  }

  /** A string already made of [0-9a-z_] is left as it is, so sanitising twice changes nothing. */
  lemma SanitiseFixesCleanNames(s: string)
    requires forall i :: 0 <= i < |s| ==> IsLowerWordChar(s[i])
    ensures Sanitise(s) == s
  {
  }

  lemma SanitiseIdempotent(s: string)
    ensures Sanitise(Sanitise(s)) == Sanitise(s)
  {
    SanitiseFixesCleanNames(Sanitise(s));
  }

  /**
   * What Python 2's str.strip() removes from a byte string: space, \t, \n, \v,
   * \f and \r. unicode.strip() removes these and the other characters of
   * IsUnicodeSpace below.
   */
  predicate IsSpace(c: char)
  {
    c == ' ' || ('\t' <= c <= '\r')
  }

  // ---------------------------------------------------------------------------
  // Prefixes, suffixes, substrings
  // ---------------------------------------------------------------------------

  predicate StartsWith(s: string, prefix: string)
  {
    |prefix| <= |s| && s[..|prefix|] == prefix
  }

  predicate EndsWith(s: string, suffix: string)
  {
    |suffix| <= |s| && s[|s| - |suffix|..] == suffix
  }

  /** Python's `sub in s` for strings. */
  predicate Contains(s: string, sub: string)
  {
    exists i :: 0 <= i <= |s| - |sub| && OccursAt(s, sub, i)
  }

  predicate OccursAt(s: string, sub: string, i: int)
  {
    0 <= i <= |s| - |sub| && s[i..i + |sub|] == sub
  }

  // ---------------------------------------------------------------------------
  // strip
  // ---------------------------------------------------------------------------

  function TrimLeft(s: string): (r: string)
    ensures |r| <= |s|
    ensures r == [] || !IsSpace(r[0])
    ensures forall i :: 0 <= i < |s| - |r| ==> IsSpace(s[i])
  {
    if s == [] || !IsSpace(s[0]) then s else TrimLeft(s[1..])
  }

  function TrimRight(s: string): (r: string)
    ensures |r| <= |s|
    ensures r == [] || !IsSpace(r[|r| - 1])
    ensures forall i :: |r| <= i < |s| ==> IsSpace(s[i])
  {
    if s == [] || !IsSpace(s[|s| - 1]) then s else TrimRight(s[..|s| - 1])
  }

  /** str.strip(): drop leading and trailing white space. */
  function Strip(s: string): string
  {
    TrimRight(TrimLeft(s))
  }

  /** What TrimLeft keeps is the end of the text: only a prefix is dropped. */
  lemma {:induction false} TrimLeftSuffix(s: string)
    ensures TrimLeft(s) == s[|s| - |TrimLeft(s)|..]
  {
    if s != [] && IsSpace(s[0]) {
      TrimLeftSuffix(s[1..]);
      assert s[1..][|s| - 1 - |TrimLeft(s)|..] == s[|s| - |TrimLeft(s)|..];
    }
  }

  /** What TrimRight keeps is the start of the text: only a suffix is dropped. */
  lemma {:induction false} TrimRightPrefix(s: string)
    ensures TrimRight(s) == s[..|TrimRight(s)|]
  {
    if s != [] && IsSpace(s[|s| - 1]) {
      TrimRightPrefix(s[..|s| - 1]);
      assert s[..|s| - 1][..|TrimRight(s)|] == s[..|TrimRight(s)|];
    }
  }

  // ---------------------------------------------------------------------------
  // split / join
  // ---------------------------------------------------------------------------

  /** Index of the first occurrence of c. */
  function IndexOf(s: string, c: char): (i: nat)
    requires c in s
    ensures i < |s| && s[i] == c && c !in s[..i]
  {
    if s[0] == c then 0 else 1 + IndexOf(s[1..], c)
  }

  /** Index of the last occurrence of c. */
  function LastIndexOf(s: string, c: char): (i: nat)
    requires c in s
    ensures i < |s| && s[i] == c && c !in s[i + 1..]
  {
    if s[|s| - 1] == c then |s| - 1 else LastIndexOf(s[..|s| - 1], c)
  }

  /** s.split(sep) for a one-character separator: the pieces between separators. */
  function Split(s: string, sep: char): (parts: seq<string>)
    ensures |parts| >= 1
    ensures forall i :: 0 <= i < |parts| ==> sep !in parts[i]
    decreases |s|
  {
    if sep !in s then [s]
    else
      var i := IndexOf(s, sep);
      [s[..i]] + Split(s[i + 1..], sep)
  }

  /** sep.join(parts) */
  function Join(parts: seq<string>, sep: char): string
  {
    if parts == [] then ""
    else if |parts| == 1 then parts[0]
    else parts[0] + [sep] + Join(parts[1..], sep)
  }

  /** Joining the pieces of a split gives back the string. */
  lemma {:induction false} JoinSplit(s: string, sep: char)
    ensures Join(Split(s, sep), sep) == s
    decreases |s|
  {
    if sep in s {
      var i := IndexOf(s, sep);
      var rest := Split(s[i + 1..], sep);
      var parts := [s[..i]] + rest;
      assert Split(s, sep) == parts;
      assert parts[1..] == rest;
      assert Join(parts, sep) == s[..i] + [sep] + Join(rest, sep);
      JoinSplit(s[i + 1..], sep);
      assert s == s[..i] + [sep] + s[i + 1..];
    }
  }

  /** Splitting a join of separator-free pieces gives back the pieces. */
  lemma {:induction false} SplitJoin(parts: seq<string>, sep: char)
    requires |parts| >= 1
    requires forall i :: 0 <= i < |parts| ==> sep !in parts[i]
    ensures Split(Join(parts, sep), sep) == parts
  {
    if |parts| > 1 {
      var s := Join(parts, sep);
      assert s == parts[0] + [sep] + Join(parts[1..], sep);
      assert s[|parts[0]|] == sep;
      assert sep in s;
      var i := IndexOf(s, sep);
      assert s[..|parts[0]|] == parts[0];
      assert i == |parts[0]|;
      assert s[i + 1..] == Join(parts[1..], sep);
      SplitJoin(parts[1..], sep);
    }
  }

  /** s.split(sep, 1) */
  function SplitOnce(s: string, sep: char): (parts: seq<string>)
    ensures sep !in s ==> parts == [s]
    ensures sep in s ==> |parts| == 2 && sep !in parts[0] && s == parts[0] + [sep] + parts[1]
  {
    if sep !in s then [s]
    else
      var i := IndexOf(s, sep);
      assert s == s[..i] + [sep] + s[i + 1..];
      [s[..i], s[i + 1..]]
  }

  /** s.rsplit(sep, 1) */
  function RSplitOnce(s: string, sep: char): (parts: seq<string>)
    ensures sep !in s ==> parts == [s]
    ensures sep in s ==> |parts| == 2 && sep !in parts[1] && s == parts[0] + [sep] + parts[1]
  {
    if sep !in s then [s]
    else
      var i := LastIndexOf(s, sep);
      assert s == s[..i] + [sep] + s[i + 1..];
      [s[..i], s[i + 1..]]
  }

  /** s.replace(old, new) for single characters. */
  function ReplaceChar(s: string, from: char, to: char): (r: string)
    ensures |r| == |s|
    ensures forall i :: 0 <= i < |s| ==> r[i] == (if s[i] == from then to else s[i])
  {
    seq(|s|, i requires 0 <= i < |s| => if s[i] == from then to else s[i])
  }

  // ---------------------------------------------------------------------------
  // Files written line by line
  // ---------------------------------------------------------------------------

  /** The lines of all files, one file after the other. */
  function Concat<T>(files: seq<seq<T>>): seq<T>
  {
    if files == [] then [] else Concat(files[..|files| - 1]) + files[|files| - 1]
  }

  /** Write one more line to the file opened last. */
  function AppendLast<T>(files: seq<seq<T>>, x: T): (r: seq<seq<T>>)
    requires files != []
    ensures |r| == |files| && r[..|files| - 1] == files[..|files| - 1] && r[|files| - 1] == files[|files| - 1] + [x]
  {
    files[..|files| - 1] + [files[|files| - 1] + [x]]
  }

  /** A line written to the last file comes last in the concatenation; a new empty file adds nothing. */
  lemma ConcatAppend<T>(files: seq<seq<T>>, x: T)
    ensures files != [] ==> Concat(AppendLast(files, x)) == Concat(files) + [x]
    ensures Concat(files + [[]]) == Concat(files)
  {
    assert (files + [[]])[..|files|] == files;
    if files != [] {
      var r := AppendLast(files, x);
      assert r[..|r| - 1] == files[..|files| - 1];
    }
  }

  // ---------------------------------------------------------------------------
  // os.path.join
  // ---------------------------------------------------------------------------

  /** os.path.join(a, b) on POSIX: an absolute b replaces a; otherwise a "/" goes between unless a is empty or already ends with one. */
  function PathJoin(a: string, b: string): (r: string)
    ensures StartsWith(b, "/") ==> r == b
    ensures !StartsWith(b, "/") ==> EndsWith(r, b) && StartsWith(r, a) && |r| <= |a| + 1 + |b|
    ensures !StartsWith(b, "/") && a != "" ==> r[..|r| - |b|] == if EndsWith(a, "/") then a else a + "/"
  {
    if StartsWith(b, "/") then b
    else
      var dir := if a == "" || EndsWith(a, "/") then a else a + "/";
      var r := dir + b;
      assert r[..|dir|] == dir && r[|r| - |b|..] == b;
      assert StartsWith(dir, a);
      r
  }

  /** A relative second part is appended to the first, slash-terminated unless it is empty. */
  lemma PathJoinRelative(a: string, b: string)
    requires !StartsWith(b, "/")
    ensures PathJoin(a, b) == (if a == "" || EndsWith(a, "/") then a else a + "/") + b
  {
  }

  /** A common prefix cancels. */
  lemma AppendCancel(c: string, x: string, y: string)
    requires c + x == c + y
    ensures x == y
  {
    assert x == (c + x)[|c|..];
    assert y == (c + y)[|c|..];
  }

  // ---------------------------------------------------------------------------
  // Decimal numbers: str(n) and int(s)
  // ---------------------------------------------------------------------------

  function DigitChar(d: nat): char
    requires d < 10
  {
    ('0' as int + d) as char
  }

  function DigitValue(c: char): nat
    requires IsDigit(c)
  {
    c as int - '0' as int
  }

  /** str(n) for a non-negative integer. */
  function NatToString(n: nat): (s: string)
    ensures |s| >= 1
    ensures forall i :: 0 <= i < |s| ==> IsDigit(s[i])
  {
    if n < 10 then [DigitChar(n)] else NatToString(n / 10) + [DigitChar(n % 10)]
  }

  /** str(i) for any integer. */
  function IntToString(i: int): string
  {
    if i < 0 then "-" + NatToString(-i) else NatToString(i)
  }

  function DigitsValue(s: string): nat
    requires forall i :: 0 <= i < |s| ==> IsDigit(s[i])
  {
    if s == [] then 0 else DigitsValue(s[..|s| - 1]) * 10 + DigitValue(s[|s| - 1])
  }

  lemma {:induction false} DigitsOfNat(n: nat)
    ensures DigitsValue(NatToString(n)) == n
  {
    if n >= 10 {
      var s := NatToString(n);
      assert s[..|s| - 1] == NatToString(n / 10);
      DigitsOfNat(n / 10);
    }
  }

  predicate AllDigits(s: string)
  {
    forall i :: 0 <= i < |s| ==> IsDigit(s[i])
  }

  /**
   * int(s) for a byte string, as PyInt_FromString reads it in base 10: white
   * space, an optional sign, white space again, at least one decimal digit,
   * white space. None stands for the ValueError.
   */
  function ParseInt(s: string): Option<int>
  {
    Signed(Strip(s))
  }

  /** int() of text already stripped: an optional sign, white space, the digits. */
  function Signed(t: string): Option<int>
  {
    if t != [] && (t[0] == '-' || t[0] == '+') then
      match Unsigned(TrimLeft(t[1..]))
      case Some(n) => Some(if t[0] == '-' then -n else n)
      case None => None
    else Unsigned(t)
  }

  /** At least one decimal digit and nothing else. */
  function Unsigned(ds: string): Option<int>
  {
    if ds != [] && AllDigits(ds) then Some(DigitsValue(ds) as int) else None
  }

  /** Text that starts with something other than white space keeps its start. */
  lemma TrimLeftKeeps(s: string)
    requires s == [] || !IsSpace(s[0])
    ensures TrimLeft(s) == s
  {
  }

  /** Text that ends with something other than white space keeps its end. */
  lemma TrimRightKeeps(s: string)
    requires s == [] || !IsSpace(s[|s| - 1])
    ensures TrimRight(s) == s
  {
  }

  lemma StripNoSpace(s: string)
    requires forall k :: 0 <= k < |s| ==> !IsSpace(s[k])
    ensures Strip(s) == s
  {
    TrimLeftKeeps(s);
    TrimRightKeeps(s);
  }

  /** Text that strips to a run of digits parses as their value. */
  lemma ParseStripped(m: string, t: string)
    requires Strip(m) == t && t != [] && AllDigits(t)
    ensures ParseInt(m) == Some(DigitsValue(t) as int)
  {
    assert IsDigit(t[0]);
    assert Signed(t) == Unsigned(t);
  }

  lemma ParseDigits(t: string)
    requires t != [] && AllDigits(t)
    ensures ParseInt(t) == Some(DigitsValue(t) as int)
  {
    TrimLeftKeeps(t);
    TrimRightKeeps(t);
    ParseStripped(t, t);
  }

  /** A text that starts with '-' reads as the number after it, white space skipped, negated. */
  lemma SignedMinus(m: string, t: string, v: int)
    requires m != [] && m[0] == '-' && TrimLeft(m[1..]) == t && Unsigned(t) == Some(v)
    ensures Signed(m) == Some(-v)
  {
  }

  lemma UnsignedDigits(t: string)
    requires t != [] && AllDigits(t)
    ensures Unsigned(t) == Some(DigitsValue(t) as int)
  {
  }

  /** Text with no blank at either end is read without stripping. */
  lemma ParseBare(m: string)
    requires m != [] && !IsSpace(m[0]) && !IsSpace(m[|m| - 1])
    ensures ParseInt(m) == Signed(m)
  {
    TrimLeftKeeps(m);
    TrimRightKeeps(m);
  }

  lemma ParseNegDigits(t: string)
    requires t != [] && AllDigits(t)
    ensures ParseInt("-" + t) == Some(-(DigitsValue(t) as int))
  {
    var m := "-" + t;
    assert m[|m| - 1] == t[|t| - 1];
    ParseBare(m);
    SignedNegDigits(t);
  }

  lemma SignedNegDigits(t: string)
    requires t != [] && AllDigits(t)
    ensures Signed("-" + t) == Some(-(DigitsValue(t) as int))
  {
    var m := "-" + t;
    assert m[0] == '-' && m[1..] == t;
    TrimLeftKeeps(t);
    UnsignedDigits(t);
    SignedMinus(m, t, DigitsValue(t));
  }

  /** White space may stand between the sign and the digits: int("- 5") is -5. */
  lemma ParseSpaceAfterSign(t: string)
    requires t != [] && AllDigits(t)
    ensures ParseInt("- " + t) == Some(-(DigitsValue(t) as int))
  {
    var m := "- " + t;
    assert m[|m| - 1] == t[|t| - 1];
    ParseBare(m);
    SignedSpaceNegDigits(t);
  }

  lemma SignedSpaceNegDigits(t: string)
    requires t != [] && AllDigits(t)
    ensures Signed("- " + t) == Some(-(DigitsValue(t) as int))
  {
    var m := "- " + t;
    BlankAfterSign(t);
    UnsignedDigits(t);
    SignedMinus(m, t, DigitsValue(t));
  }

  lemma BlankAfterSign(t: string)
    requires t == [] || !IsSpace(t[0])
    ensures ("- " + t)[0] == '-' && TrimLeft(("- " + t)[1..]) == t
  {
    assert ("- " + t)[1..] == " " + t;
    SkipBlank(t);
  }

  /** One blank before text that does not start with one is dropped. */
  lemma SkipBlank(t: string)
    requires t == [] || !IsSpace(t[0])
    ensures TrimLeft(" " + t) == t
  {
    assert (" " + t)[1..] == t;
    TrimLeftKeeps(t);
  }

  /** int(str(i)) == i: printing an integer and parsing it back is the identity. */
  lemma IntRoundTrip(i: int)
    ensures ParseInt(IntToString(i)) == Some(i)
  {
    var n: nat := if i < 0 then -i else i;
    DigitsOfNat(n);
    if i < 0 {
      ParseNegDigits(NatToString(n));
    } else {
      ParseDigits(NatToString(n));
    }
  }

  // ---------------------------------------------------------------------------
  // int() of a unicode string
  // ---------------------------------------------------------------------------

  /**
   * Python 2.7's unicode white space (Unicode 5.2: bidirectional class WS, B
   * or S, or general category Zs): what int() of a unicode string reads as a
   * blank.
   */
  predicate IsUnicodeSpace(c: char)
  {
    IsSpace(c) || ('\U{1c}' <= c <= '\U{1f}') || c == '\U{85}' || c == '\U{a0}'
    || c == '\U{1680}' || c == '\U{180e}' || ('\U{2000}' <= c <= '\U{200a}')
    || c == '\U{2028}' || c == '\U{2029}' || c == '\U{202f}' || c == '\U{205f}'
    || c == '\U{3000}'
  }

  predicate Run(n: int, zero: int)
  {
    zero <= n < zero + 10
  }

  /**
   * The digit zero of the run of ten Unicode 5.2 decimal digits (category Nd)
   * code point n belongs to, or -1 when n is not a decimal digit.
   */
  function DecimalZero(n: int): (z: int)
    ensures z == -1 || (z >= 0x30 && Run(n, z))
  {
    if Run(n, 0x30) then 0x30
    else if Run(n, 0x660) then 0x660
    else if Run(n, 0x6f0) then 0x6f0
    else if Run(n, 0x7c0) then 0x7c0
    else if Run(n, 0x966) then 0x966
    else if Run(n, 0x9e6) then 0x9e6
    else if Run(n, 0xa66) then 0xa66
    else if Run(n, 0xae6) then 0xae6
    else if Run(n, 0xb66) then 0xb66
    else if Run(n, 0xbe6) then 0xbe6
    else if Run(n, 0xc66) then 0xc66
    else if Run(n, 0xce6) then 0xce6
    else if Run(n, 0xd66) then 0xd66
    else if Run(n, 0xe50) then 0xe50
    else if Run(n, 0xed0) then 0xed0
    else if Run(n, 0xf20) then 0xf20
    else if Run(n, 0x1040) then 0x1040
    else if Run(n, 0x1090) then 0x1090
    else if Run(n, 0x17e0) then 0x17e0
    else if Run(n, 0x1810) then 0x1810
    else if Run(n, 0x1946) then 0x1946
    else if Run(n, 0x19d0) then 0x19d0
    else if Run(n, 0x1a80) then 0x1a80
    else if Run(n, 0x1a90) then 0x1a90
    else if Run(n, 0x1b50) then 0x1b50
    else if Run(n, 0x1bb0) then 0x1bb0
    else if Run(n, 0x1c40) then 0x1c40
    else if Run(n, 0x1c50) then 0x1c50
    else if Run(n, 0xa620) then 0xa620
    else if Run(n, 0xa8d0) then 0xa8d0
    else if Run(n, 0xa900) then 0xa900
    else if Run(n, 0xa9d0) then 0xa9d0
    else if Run(n, 0xaa50) then 0xaa50
    else if Run(n, 0xabf0) then 0xabf0
    else if Run(n, 0xff10) then 0xff10
    else if Run(n, 0x104a0) then 0x104a0
    else if Run(n, 0x1d7ce) then 0x1d7ce
    else if Run(n, 0x1d7d8) then 0x1d7d8
    else if Run(n, 0x1d7e2) then 0x1d7e2
    else if Run(n, 0x1d7ec) then 0x1d7ec
    else if Run(n, 0x1d7f6) then 0x1d7f6
    else -1
  }

  /** unicodedata.decimal(c), None for a character that is not a decimal digit. */
  function DecimalValue(c: char): (r: Option<nat>)
    ensures IsDigit(c) ==> r == Some(DigitValue(c))
    ensures c < '0' ==> r == None
    ensures r.Some? ==> r.value < 10
  {
    var z := DecimalZero(c as int);
    if z < 0 then None else Some(c as int - z)
  }

  /**
   * What PyUnicode_EncodeDecimal makes of one character: white space becomes
   * ' ', a decimal digit its ASCII digit, any other character from U+0001 to
   * U+00FF stays; the rest raise UnicodeEncodeError, a ValueError (None).
   */
  function EncodeChar(c: char): (r: Option<char>)
    ensures r.Some? ==> r.value as int < 256
  {
    if IsUnicodeSpace(c) then Some(' ')
    else match DecimalValue(c)
      case Some(d) => Some(DigitChar(d))
      case None => if 0 < c as int < 256 then Some(c) else None
  }

  /** PyUnicode_EncodeDecimal: the byte string int() of a unicode string parses. */
  function EncodeDecimal(s: string): (r: Option<string>)
    ensures r.Some? <==> forall k :: 0 <= k < |s| ==> EncodeChar(s[k]).Some?
    ensures r.Some? ==> |r.value| == |s| && forall k :: 0 <= k < |s| ==> Some(r.value[k]) == EncodeChar(s[k])
  {
    if forall k :: 0 <= k < |s| ==> EncodeChar(s[k]).Some? then
      Some(seq(|s|, k requires 0 <= k < |s| => EncodeChar(s[k]).value))
    else None
  }

  /** int(s) for a unicode string: PyInt_FromUnicode encodes it, then parses the bytes. */
  function ParseUnicodeInt(s: string): Option<int>
  {
    match EncodeDecimal(s)
    case Some(b) => ParseInt(b)
    case None => None
  }

  /** Text made of ASCII digits and signs encodes to itself. */
  lemma EncodeAsciiDigits(s: string)
    requires forall k :: 0 <= k < |s| ==> IsDigit(s[k]) || s[k] == '-'
    ensures EncodeDecimal(s) == Some(s)
  {
    forall k | 0 <= k < |s|
      ensures EncodeChar(s[k]) == Some(s[k])
    {
      if IsDigit(s[k]) {
        assert DigitChar(DigitValue(s[k])) == s[k];
      }
    }
    assert EncodeDecimal(s).value == s;
  }

  /** int(unicode(str(i))) == i. */
  lemma UnicodeIntRoundTrip(i: int)
    ensures ParseUnicodeInt(IntToString(i)) == Some(i)
  {
    var s := IntToString(i);
    forall k | 0 <= k < |s|
      ensures IsDigit(s[k]) || s[k] == '-'
    {
      if i < 0 && k > 0 {
        assert s[k] == NatToString(-i)[k - 1];
      }
    }
    EncodeAsciiDigits(s);
    IntRoundTrip(i);
  }

  /** Unicode white space reads as a blank: int(u"\xa05") and int(u"\x1c5") are 5. */
  lemma UnicodeSpaceIsBlank(c: char, t: string)
    requires IsUnicodeSpace(c)
    requires t != [] && AllDigits(t)
    ensures ParseUnicodeInt([c] + t) == Some(DigitsValue(t) as int)
  {
    var s := [c] + t;
    forall k | 0 <= k < |s|
      ensures EncodeChar(s[k]) == Some(if k == 0 then ' ' else s[k])
    {
      if k > 0 {
        assert s[k] == t[k - 1];
        assert DigitChar(DigitValue(s[k])) == s[k];
      }
    }
    var b := EncodeDecimal(s).value;
    assert b == " " + t;
    BlankThenDigits(t);
  }

  /** One blank before a run of digits is stripped. */
  lemma BlankThenDigits(t: string)
    requires t != [] && AllDigits(t)
    ensures ParseInt(" " + t) == Some(DigitsValue(t) as int)
  {
    var b := " " + t;
    assert Strip(b) == t by {
      SkipBlank(t);
      TrimRightKeeps(t);
    }
    ParseStripped(b, t);
  }

  /** Text that encodes character by character to b encodes to b. */
  lemma EncodesTo(s: string, b: string)
    requires |s| == |b| && forall k :: 0 <= k < |s| ==> EncodeChar(s[k]) == Some(b[k])
    ensures EncodeDecimal(s) == Some(b)
  {
    assert EncodeDecimal(s).value == b;
  }

  /** A lone character that encodes to a digit reads as that digit. */
  lemma OneDigit(c: char, d: nat)
    requires d < 10 && EncodeChar(c) == Some(DigitChar(d))
    ensures ParseUnicodeInt([c]) == Some(d)
  {
    var b := [DigitChar(d)];
    EncodesTo([c], b);
    ParseDigits(b);
    assert b[..0] == [];
  }

  /** Decimal digits of other scripts read as their values: int(u"\u0665") and int(u"\uff15") are 5. */
  lemma OtherScriptDigits()
    ensures ParseUnicodeInt("\U{665}") == Some(5)
    ensures ParseUnicodeInt("\U{ff15}") == Some(5)
    ensures ParseUnicodeInt("\U{1d7d0}") == Some(2)
  {
    assert DecimalZero(0x665) == 0x660;
    OneDigit('\U{665}', 5);
    assert DecimalZero(0xff15) == 0xff10;
    OneDigit('\U{ff15}', 5);
    assert DecimalZero(0x1d7d0) == 0x1d7ce;
    OneDigit('\U{1d7d0}', 2);
  }

  /** A character past U+00FF that is neither a blank nor a digit raises, and so does NUL. */
  lemma UnencodableRaises(s: string, k: int)
    requires 0 <= k < |s| && EncodeChar(s[k]).None?
    ensures ParseUnicodeInt(s) == None
  {
  }

  /** A Latin-1 letter passes the encoding and then fails the parse: int(u"\xe9") raises ValueError. */
  lemma LatinLetterRaises()
    ensures ParseUnicodeInt("\U{e9}") == None
  {
    assert EncodeChar('\U{e9}') == Some('\U{e9}');
    EncodesTo("\U{e9}", "\U{e9}");
    var b := "\U{e9}";
    TrimLeftKeeps(b);
    TrimRightKeeps(b);
    assert !IsDigit(b[0]);
  }
}
