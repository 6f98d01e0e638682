/**
 * TOML, line by line: how keys, values and lines are written, and a reader for lines of that kind after TOML v1.0.0
 * (sections "Keys", "String", "Integer", "Float", "Boolean", "Array", "Table").
 */
module TomlText {
  import opened Wrappers

  datatype Value = Bool(on: bool) | Int(n: int) | Float(f: FloatText) | Str(s: string) | List(items: seq<Value>)

  /** A floating-point number by the parts of its shortest decimal text, which is how it is written. */
  datatype Parts =
    | Infinite(negative: bool)
    | NotANumber
    | Decimal(negative: bool, whole: nat, fraction: string, exponent: Option<int>)

  /** A decimal text of a float has a fraction or an exponent. */
  type FloatText = f: Parts | f.Decimal? ==> AllDigits(f.fraction) && (f.fraction != "" || f.exponent.Some?)
    witness NotANumber

  predicate IsDigit(c: char) { '0' <= c <= '9' }

  predicate AllDigits(s: string) {
    forall k :: 0 <= k < |s| ==> IsDigit(s[k])
  }

  datatype Line = Blank | Header(path: seq<string>) | Pair(key: string, value: Value)

  const Delete: char := '\U{007F}'

  /** Which characters outside ASCII count as letters or digits when a key is written. */
  type Alnum = char -> bool

  // ---- Writing ----

  function HexDigit(d: nat): char
    requires d < 16
  {
    if d < 10 then '0' + d as char else 'a' + (d - 10) as char
  }

  /** One character inside quotes: quotes, backslashes and characters below the space are escaped, nothing else is. */
  function Escaped(c: char): string {
    if c == '"' then "\\\""
    else if c == '\\' then "\\\\"
    else if c == '\n' then "\\n"
    else if c == '\r' then "\\r"
    else if c == '\t' then "\\t"
    else if c == '\U{0008}' then "\\b"
    else if c == '\U{000C}' then "\\f"
    else if c < ' ' then ['\\', 'u', '0', '0', HexDigit(c as nat / 16), HexDigit(c as nat % 16)]
    else [c]
  }

  function EscapeAll(s: string): string {
    if s == "" then "" else Escaped(s[0]) + EscapeAll(s[1..])
  }

  function Quoted(s: string): string { ['"'] + EscapeAll(s) + ['"'] }

  predicate IsAsciiAlnum(c: char) {
    'a' <= c <= 'z' || 'A' <= c <= 'Z' || '0' <= c <= '9'
  }

  /** Characters a key is left bare for. */
  predicate KeepsBare(alnum: Alnum, c: char) {
    c == '_' || c == '-' || if c < '\U{0080}' then IsAsciiAlnum(c) else alnum(c)
  }

  predicate WrittenBare(alnum: Alnum, key: string) {
    key != "" && forall k :: 0 <= k < |key| ==> KeepsBare(alnum, key[k])
  }

  function KeyText(alnum: Alnum, key: string): string {
    if WrittenBare(alnum, key) then key else Quoted(key)
  }

  function Digits(n: nat): string {
    (if n < 10 then "" else Digits(n / 10)) + ['0' + (n % 10) as char]
  }

  function IntText(n: int): string {
    if n < 0 then ['-'] + Digits(-n) else Digits(n)
  }

  function FractionText(fraction: string): string {
    if fraction == "" then "" else "." + fraction
  }

  /** An exponent has a sign and at least two digits. */
  function ExponentText(exponent: Option<int>): string {
    match exponent
    case None => ""
    case Some(n) => (if n < 0 then "e-" else "e+") + TwoDigits(if n < 0 then -n else n)
  }

  function TwoDigits(n: nat): string { (if n < 10 then "0" else "") + Digits(n) }

  function PartsText(f: FloatText): string {
    match f
    case Infinite(negative) => (if negative then "-" else "") + "inf"
    case NotANumber => "nan"
    case Decimal(negative, whole, fraction, exponent) =>
      (if negative then "-" else "") + (Digits(whole) + (FractionText(fraction) + ExponentText(exponent)))
  }

  function ValueText(v: Value): string {
    match v
    case Bool(on) => if on then "true" else "false"
    case Int(n) => IntText(n)
    case Float(f) => PartsText(f)
    case Str(s) => Quoted(s)
    case List(items) => ['['] + ItemsText(items)
  }

  /** The items of a list, up to and including the closing bracket. */
  function ItemsText(items: seq<Value>): string {
    if items == [] then "]"
    else ValueText(items[0]) + if |items| == 1 then "]" else ", " + ItemsText(items[1..])
  }

  /** The parts of a header, up to and including the closing bracket. */
  function PathText(alnum: Alnum, path: seq<string>): string {
    if path == [] then "]"
    else KeyText(alnum, path[0]) + if |path| == 1 then "]" else "." + PathText(alnum, path[1..])
  }

  function LineText(alnum: Alnum, line: Line): string {
    match line
    case Blank => ""
    case Header(path) => ['['] + PathText(alnum, path)
    case Pair(key, value) => KeyText(alnum, key) + " = " + ValueText(value)
  }

  // ---- Reading ----

  /** What was read from the front of a text, and the text after it. */
  datatype Read<+T> = Got(value: T, rest: string) | Bad

  /** TOML's white space inside a line. */
  function SkipBlank(s: string): (r: string)
    ensures |r| <= |s|
  {
    if s != "" && (s[0] == ' ' || s[0] == '\t') then SkipBlank(s[1..]) else s
  }

  function HexValue(c: char): Option<nat> {
    if '0' <= c <= '9' then Some((c - '0') as nat)
    else if 'a' <= c <= 'f' then Some((c - 'a') as nat + 10)
    else if 'A' <= c <= 'F' then Some((c - 'A') as nat + 10)
    else None
  }

  function HexNumber(s: string): Option<nat> {
    if s == "" then Some(0)
    else
      var before, last := HexNumber(s[..|s| - 1]), HexValue(s[|s| - 1]);
      if before.None? || last.None? then None else Some(before.value * 16 + last.value)
  }

  /** A character given by `n` hexadecimal digits; surrogates are not characters. */
  function ReadCode(s: string, n: nat): (r: Read<char>)
    ensures r.Got? ==> |r.rest| <= |s|
  {
    if |s| < n then Bad
    else
      match HexNumber(s[..n])
      case None => Bad
      case Some(code) =>
        if code < 0xD800 || 0xE000 <= code < 0x110000 then Got(code as char, s[n..]) else Bad
  }

  /** What follows a backslash. */
  function ReadEscape(s: string): (r: Read<char>)
    ensures r.Got? ==> |r.rest| < |s|
  {
    if s == "" then Bad
    else if s[0] == '"' then Got('"', s[1..])
    else if s[0] == '\\' then Got('\\', s[1..])
    else if s[0] == 'n' then Got('\n', s[1..])
    else if s[0] == 'r' then Got('\r', s[1..])
    else if s[0] == 't' then Got('\t', s[1..])
    else if s[0] == 'b' then Got('\U{0008}', s[1..])
    else if s[0] == 'f' then Got('\U{000C}', s[1..])
    else if s[0] == 'u' then ReadCode(s[1..], 4)
    else if s[0] == 'U' then ReadCode(s[1..], 8)
    else Bad
  }

  /** Control characters a basic string may not hold as they are. */
  predicate Illegal(c: char) {
    (c < ' ' && c != '\t') || c == Delete
  }

  function Prepended<T>(first: T, r: Read<seq<T>>): Read<seq<T>> {
    match r case Bad => Bad case Got(more, rest) => Got([first] + more, rest)
  }

  /** The rest of a basic string, after its opening quote. */
  function ReadBody(s: string): (r: Read<string>)
    ensures r.Got? ==> |r.rest| < |s|
    decreases |s|
  {
    if s == "" || Illegal(s[0]) then Bad
    else if s[0] == '"' then Got("", s[1..])
    else
      var first := if s[0] == '\\' then ReadEscape(s[1..]) else Got(s[0], s[1..]);
      if first.Bad? then Bad else Prepended(first.value, ReadBody(first.rest))
  }

  /** A basic string; three quotes would open a multi-line string, which is never written. */
  function ReadString(s: string): (r: Read<string>)
    requires s != "" && s[0] == '"'
    ensures r.Got? ==> |r.rest| < |s|
  {
    if |s| >= 3 && s[1] == '"' && s[2] == '"' then Bad else ReadBody(s[1..])
  }

  /** Characters of a bare key. */
  predicate IsBare(c: char) {
    IsAsciiAlnum(c) || c == '_' || c == '-'
  }

  function BareLength(s: string): (n: nat)
    ensures n <= |s|
  {
    if s != "" && IsBare(s[0]) then 1 + BareLength(s[1..]) else 0
  }

  function ReadKey(s: string): (r: Read<string>)
    ensures r.Got? ==> |r.rest| < |s|
  {
    if s != "" && s[0] == '"' then ReadString(s)
    else if BareLength(s) == 0 then Bad
    else Got(s[..BareLength(s)], s[BareLength(s)..])
  }

  function DigitsLength(s: string): (n: nat)
    ensures n <= |s|
    ensures forall k :: 0 <= k < n ==> IsDigit(s[k])
  {
    if s != "" && IsDigit(s[0]) then 1 + DigitsLength(s[1..]) else 0
  }

  function NatOf(s: string): nat
    requires forall k :: 0 <= k < |s| ==> IsDigit(s[k])
  {
    if s == "" then 0
    else
      var last := s[|s| - 1];
      assert IsDigit(last);
      NatOf(s[..|s| - 1]) * 10 + (last as nat - '0' as nat)
  }

  /** A decimal number without leading zeros. */
  function ReadNat(s: string): (r: Read<nat>)
    ensures r.Got? ==> |r.rest| < |s|
  {
    var n := DigitsLength(s);
    if n == 0 || (n > 1 && s[0] == '0') then Bad else Got(NatOf(s[..n]), s[n..])
  }

  predicate StartsWith(s: string, p: string) {
    |p| <= |s| && s[..|p|] == p
  }

  function ReadFraction(s: string): (r: Read<string>)
    ensures r.Got? ==> |r.rest| <= |s| && AllDigits(r.value)
  {
    if s == "" || s[0] != '.' then Got("", s)
    else
      var n := DigitsLength(s[1..]);
      if n == 0 then Bad else Got(s[1..][..n], s[1..][n..])
  }

  /** An exponent may have a sign and leading zeros. */
  function ReadExponent(s: string): (r: Read<Option<int>>)
    ensures r.Got? ==> |r.rest| <= |s|
  {
    if s == "" || (s[0] != 'e' && s[0] != 'E') then Got(None, s)
    else
      var signed := |s| > 1 && (s[1] == '-' || s[1] == '+');
      var digits := if signed then s[2..] else s[1..];
      var n := DigitsLength(digits);
      if n == 0 then Bad
      else Got(Some(if signed && s[1] == '-' then -(NatOf(digits[..n]) as int) else NatOf(digits[..n])), digits[n..])
  }

  /** What comes after the sign: an integer, or a float if there is a fraction or an exponent. */
  function ReadMagnitude(negative: bool, s: string): (r: Read<Value>)
    ensures r.Got? ==> |r.rest| < |s|
  {
    match ReadNat(s)
    case Bad => Bad
    case Got(n, afterWhole) =>
      match ReadFraction(afterWhole)
      case Bad => Bad
      case Got(fraction, afterFraction) =>
        match ReadExponent(afterFraction)
        case Bad => Bad
        case Got(exponent, rest) =>
          if fraction == "" && exponent.None? then Got(Int(if negative then -(n as int) else n), rest)
          else Got(Float(Decimal(negative, n, fraction, exponent)), rest)
  }

  function ReadNumber(s: string): (r: Read<Value>)
    ensures r.Got? ==> |r.rest| < |s|
  {
    var signed := s != "" && (s[0] == '-' || s[0] == '+');
    var negative, t := signed && s[0] == '-', if signed then s[1..] else s;
    if StartsWith(t, "inf") then Got(Float(Infinite(negative)), t[3..])
    else if StartsWith(t, "nan") then Got(Float(NotANumber), t[3..])
    else ReadMagnitude(negative, t)
  }

  function ReadValue(s: string): (r: Read<Value>)
    ensures r.Got? ==> |r.rest| < |s|
    decreases |s|, 0
  {
    if s == "" then Bad
    else if s[0] == '"' then
      match ReadString(s) case Bad => Bad case Got(t, rest) => Got(Str(t), rest)
    else if s[0] == '[' then
      match ReadItems(SkipBlank(s[1..])) case Bad => Bad case Got(items, rest) => Got(List(items), rest)
    else if StartsWith(s, "true") then Got(Bool(true), s[4..])
    else if StartsWith(s, "false") then Got(Bool(false), s[5..])
    else ReadNumber(s)
  }

  /** The items of an array, after its opening bracket; a comma may trail. */
  function ReadItems(s: string): (r: Read<seq<Value>>)
    ensures r.Got? ==> |r.rest| < |s|
    decreases |s|, 1
  {
    if s != "" && s[0] == ']' then Got([], s[1..])
    else
      match ReadValue(s)
      case Bad => Bad
      case Got(v, rest) =>
        var next := SkipBlank(rest);
        if next == "" then Bad
        else if next[0] == ']' then Got([v], next[1..])
        else if next[0] != ',' then Bad
        else
          Prepended(v, ReadItems(SkipBlank(next[1..])))
  }

  /** The parts of a header, after its opening bracket. */
  function ReadPath(s: string): (r: Read<seq<string>>)
    ensures r.Got? ==> |r.rest| < |s|
    decreases |s|
  {
    match ReadKey(s)
    case Bad => Bad
    case Got(key, rest) =>
      var next := SkipBlank(rest);
      if next == "" then Bad
      else if next[0] == ']' then Got([key], next[1..])
      else if next[0] != '.' then Bad
      else
        Prepended(key, ReadPath(SkipBlank(next[1..])))
  }

  function ReadLine(text: string): Option<Line> {
    var s := SkipBlank(text);
    if s == "" then Some(Blank)
    else if s[0] == '[' then
      match ReadPath(SkipBlank(s[1..]))
      case Bad => None
      case Got(path, rest) => if SkipBlank(rest) == "" then Some(Header(path)) else None
    else
      match ReadKey(s)
      case Bad => None
      case Got(key, rest) => ReadAssignment(key, SkipBlank(rest))
  }

  /** The rest of a line after its key. */
  function ReadAssignment(key: string, s: string): Option<Line> {
    if s == "" || s[0] != '=' then None
    else
      match ReadValue(SkipBlank(s[1..]))
      case Bad => None
      case Got(value, after) => if SkipBlank(after) == "" then Some(Pair(key, value)) else None
  }

  // ---- Characters ----

  const Hex: string := "0123456789abcdef"
  const UpperHex: string := "0123456789ABCDEF"

  /** What stands for each character in a quoted text: seven short escapes, four hexadecimal digits for the other
      control characters, and otherwise the character. */
  lemma EscapesAre(c: char)
    ensures c == '"' ==> Escaped(c) == ['\\', '"']
    ensures c == '\\' ==> Escaped(c) == ['\\', '\\']
    ensures c == '\n' ==> Escaped(c) == ['\\', 'n']
    ensures c == '\r' ==> Escaped(c) == ['\\', 'r']
    ensures c == '\t' ==> Escaped(c) == ['\\', 't']
    ensures c as int == 8 ==> Escaped(c) == ['\\', 'b']
    ensures c as int == 12 ==> Escaped(c) == ['\\', 'f']
    ensures c as int < 32 && c as int !in {8, 9, 10, 12, 13} ==>
      Escaped(c) == ['\\', 'u', '0', '0', Hex[c as int / 16], Hex[c as int % 16]]
    ensures c as int >= 32 && c != '"' && c != '\\' ==> Escaped(c) == [c]
  {
    if c as int < 32 {
      DigitIsHex(c as int / 16);
      DigitIsHex(c as int % 16);
    }
  }

  lemma DigitIsHex(d: nat)
    requires d < 16
    ensures HexDigit(d) == Hex[d]
  {
  }

  /** Hexadecimal digits are read in either case, and nothing else is. */
  lemma HexInEitherCase(d: nat, c: char)
    requires d < 16
    ensures HexValue(Hex[d]) == Some(d) && HexValue(UpperHex[d]) == Some(d)
    ensures HexValue(c) == Some(d) <==> c == Hex[d] || c == UpperHex[d]
  {
  }

  /** A key is left bare exactly when it is not empty and all its characters are letters or digits, in ASCII or beyond,
      underscores or hyphens; any other is quoted. */
  lemma BareExactlyWhen(alnum: Alnum, key: string)
    ensures KeyText(alnum, key) == key
            <==> key != "" && forall k :: 0 <= k < |key| ==> BareByCode(key[k] as int, alnum(key[k]))
    ensures KeyText(alnum, key) != key ==> KeyText(alnum, key) == Quoted(key)
  {
    forall k | 0 <= k < |key| ensures KeepsBare(alnum, key[k]) <==> BareByCode(key[k] as int, alnum(key[k])) {
    }
    QuotedIsLonger(key);
  }

  predicate BareByCode(n: int, alnum: bool) {
    n == 45 || n == 95 || 48 <= n <= 57 || 65 <= n <= 90 || 97 <= n <= 122 || (n >= 128 && alnum)
  }

  lemma {:induction false} EscapedIsLonger(s: string)
    ensures |EscapeAll(s)| >= |s|
  {
    if s != "" { EscapedIsLonger(s[1..]); }
  }

  lemma QuotedIsLonger(s: string)
    ensures |Quoted(s)| > |s|
  {
    EscapedIsLonger(s);
  }

  /** A reader passes over spaces and tabs, and stops at the first other character. */
  lemma {:induction false} BlanksAreSkipped(blanks: string, rest: string)
    requires forall k :: 0 <= k < |blanks| ==> blanks[k] as int == 32 || blanks[k] as int == 9
    requires rest == "" || (rest[0] as int != 32 && rest[0] as int != 9)
    ensures SkipBlank(blanks + rest) == rest
    decreases |blanks|
  {
    if blanks == "" {
      assert blanks + rest == rest;
    } else {
      assert (blanks + rest)[1..] == blanks[1..] + rest;
      BlanksAreSkipped(blanks[1..], rest);
    }
  }

  /** An exponent has a sign, and two digits at least. */
  lemma ExponentsAre(n: nat)
    ensures ExponentText(Some(n)) == "e+" + (if n < 10 then "0" + Digits(n) else Digits(n))
    ensures n > 0 ==> ExponentText(Some(-(n as int))) == "e-" + (if n < 10 then "0" + Digits(n) else Digits(n))
    ensures ExponentText(None) == ""
  {
    assert "" + Digits(n) == Digits(n);
  }

  // ---- What a reader refuses ----

  /** Numbers: no leading zero, digits after a point and in an exponent, which takes either letter, and a plus sign that
      means nothing. */
  lemma NumbersByTheRules(s: string)
    ensures |s| >= 2 && s[0] == '0' && IsDigit(s[1]) ==> ReadNat(s) == Bad
    ensures s != "" && s[0] == '.' && (|s| == 1 || !IsDigit(s[1])) ==> ReadFraction(s) == Bad
    ensures s == "e" || s == "E" || s == "e+" || s == "e-" ==> ReadExponent(s) == Bad
    ensures s != "" && s[0] == 'E' ==> ReadExponent(s) == ReadExponent(['e'] + s[1..])
    ensures |s| >= 2 && s[0] == 'e' && s[1] == '+' && |s| > 2 && IsDigit(s[2]) ==>
      ReadExponent(s) == ReadExponent(['e'] + s[2..])
    ensures |s| >= 2 && s[0] == '+' && IsDigit(s[1]) ==> ReadNumber(s) == ReadNumber(s[1..])
  {
    if |s| >= 2 && s[0] == '0' && IsDigit(s[1]) { assert DigitsLength(s[1..]) >= 1; }
    if s != "" && s[0] == 'E' { EitherLetter(s); }
    if |s| > 2 && s[0] == 'e' && s[1] == '+' && IsDigit(s[2]) { PlusMeansNothing(s); }
  }

  lemma EitherLetter(s: string)
    requires s != "" && s[0] == 'E'
    ensures ReadExponent(s) == ReadExponent(['e'] + s[1..])
  {
    var t := ['e'] + s[1..];
    assert t[1..] == s[1..];
    if |s| > 1 { assert t[1] == s[1] && t[2..] == s[2..]; }
  }

  lemma PlusMeansNothing(s: string)
    requires |s| > 2 && s[0] == 'e' && s[1] == '+' && IsDigit(s[2])
    ensures ReadExponent(s) == ReadExponent(['e'] + s[2..])
  {
    var t := ['e'] + s[2..];
    assert t[1] == s[2] && t[1..] == s[2..];
  }

  /** Texts: no control character but the tab, no delete, no multi-line quotes, and only known escapes; a code is that
      of a character. */
  lemma TextsByTheRules(c: char, s: string)
    ensures Illegal(c) <==> (c as int < 32 && c as int != 9) || c as int == 127
    ensures |s| >= 3 && s[0] == '"' && s[1] == '"' && s[2] == '"' ==> ReadString(s) == Bad
    ensures ReadEscape(['u'] + s) == ReadCode(s, 4) && ReadEscape(['U'] + s) == ReadCode(s, 8)
    ensures c !in {'"', '\\', 'n', 'r', 't', 'b', 'f', 'u', 'U'} ==> ReadEscape([c] + s) == Bad
    ensures |s| >= 4 && HexNumber(s[..4]).Some? ==>
      var code := HexNumber(s[..4]).value; (ReadCode(s, 4) == Bad <==> 0xD800 <= code <= 0xDFFF || code > 0x10FFFF)
  {
    assert (['u'] + s)[1..] == s && (['U'] + s)[1..] == s;
  }

  /** Lists and lines: a comma between items, and nothing after a value or a header. */
  lemma LinesByTheRules(key: string, s: string, v: Value, path: seq<string>, rest: string)
    requires SkipBlank(rest) != ""
    ensures ReadValue(s) == Got(v, rest) && s[0] != ']' && SkipBlank(rest)[0] != ',' && SkipBlank(rest)[0] != ']' ==>
      ReadItems(s) == Bad
    ensures ReadValue(SkipBlank(s)) == Got(v, rest) ==> ReadAssignment(key, ['='] + s) == None
    ensures ReadPath(SkipBlank(s)) == Got(path, rest) ==> ReadLine(['['] + s) == None
  {
    assert (['='] + s)[1..] == s && (['['] + s)[1..] == s;
  }

  // ---- What can be read back ----

  /** A quoted text can be read back exactly when it does not hold the delete character. */
  predicate CleanText(s: string) { Delete !in s }

  /** A bare key must be ASCII to be read back. */
  predicate CleanKey(alnum: Alnum, key: string) {
    if WrittenBare(alnum, key) then forall k :: 0 <= k < |key| ==> key[k] < '\U{0080}' else CleanText(key)
  }

  predicate CleanValue(v: Value) {
    match v
    case Str(s) => CleanText(s)
    case List(items) => forall k :: 0 <= k < |items| ==> CleanValue(items[k])
    case _ => true
  }

  predicate CleanPath(alnum: Alnum, path: seq<string>) {
    forall k :: 0 <= k < |path| ==> CleanKey(alnum, path[k])
  }

  predicate CleanLine(alnum: Alnum, line: Line) {
    match line
    case Blank => true
    case Header(path) => CleanPath(alnum, path)
    case Pair(key, value) => CleanKey(alnum, key) && CleanValue(value)
  }

  // ---- Strings ----

  lemma HexRoundTrip(d: nat)
    requires d < 16
    ensures HexValue(HexDigit(d)) == Some(d)
  {
  }

  lemma CodeRoundTrip(n: nat, rest: string)
    requires n < 32
    ensures ReadCode(['0', '0', HexDigit(n / 16), HexDigit(n % 16)] + rest, 4) == Got(n as char, rest)
  {
    var four := ['0', '0', HexDigit(n / 16), HexDigit(n % 16)];
    assert (four + rest)[..4] == four && (four + rest)[4..] == rest;
    assert four[..3] == ['0', '0', HexDigit(n / 16)] && four[..2] == ['0', '0'] && four[..1] == ['0'];
    assert four[..3][..2] == four[..2] && four[..2][..1] == four[..1] && four[..1][..0] == "";
    assert HexNumber(four[..1]) == Some(0) && HexNumber(four[..2]) == Some(0);
    HexRoundTrip(n / 16);
    HexRoundTrip(n % 16);
    assert HexNumber(four[..3]) == Some(n / 16);
    assert HexNumber(four) == Some(n);
  }

  /** An escape is read back as the character it stands for. */
  lemma EscapeRoundTrip(c: char, rest: string)
    requires |Escaped(c)| > 1
    ensures Escaped(c)[0] == '\\' && ReadEscape(Escaped(c)[1..] + rest) == Got(c, rest)
  {
    if |Escaped(c)| > 2 {
      var four := ['0', '0', HexDigit(c as nat / 16), HexDigit(c as nat % 16)];
      assert Escaped(c)[1..] + rest == ['u'] + (four + rest);
      CodeRoundTrip(c as nat, rest);
    } else {
      assert Escaped(c)[1..] + rest == [Escaped(c)[1]] + rest;
    }
  }

  lemma OneCharacter(c: char, tail: string)
    ensures ReadBody(Escaped(c) + tail) == if c == Delete then Bad else Prepended(c, ReadBody(tail))
  {
    var text := Escaped(c) + tail;
    if |Escaped(c)| > 1 {
      EscapeRoundTrip(c, tail);
      assert text[0] == '\\' && text[1..] == Escaped(c)[1..] + tail;
    } else {
      assert text[0] == c && text[1..] == tail;
    }
  }

  lemma {:induction false} BodyRoundTrip(s: string, rest: string)
    ensures ReadBody(EscapeAll(s) + ['"'] + rest) == if CleanText(s) then Got(s, rest) else Bad
    decreases |s|
  {
    if s == "" {
      assert EscapeAll(s) + ['"'] + rest == ['"'] + rest;
    } else {
      var tail := EscapeAll(s[1..]) + ['"'] + rest;
      Put(Escaped(s[0]), EscapeAll(s[1..]), ['"'], rest);
      OneCharacter(s[0], tail);
      BodyRoundTrip(s[1..], rest);
      assert s == [s[0]] + s[1..];
    }
  }

  lemma Put(a: string, b: string, c: string, d: string)
    ensures a + b + c + d == a + (b + c + d)
  {
  }

  /** A quoted text is read back, unless it holds the delete character, which makes it unreadable. */
  lemma QuotedRoundTrip(s: string, rest: string)
    requires rest == "" || rest[0] != '"'
    ensures (Quoted(s) + rest)[0] == '"'
    ensures ReadString(Quoted(s) + rest) == if CleanText(s) then Got(s, rest) else Bad
  {
    var text, body := Quoted(s) + rest, EscapeAll(s) + ['"'] + rest;
    assert text[1..] == body;
    BodyRoundTrip(s, rest);
    OnlyEmptyClosesAtOnce(s, rest);
  }

  /** The quote after the opening one is not followed by a third. */
  lemma OnlyEmptyClosesAtOnce(s: string, rest: string)
    requires rest == "" || rest[0] != '"'
    ensures var body := EscapeAll(s) + ['"'] + rest; |body| < 2 || body[0] != '"' || body[1] != '"'
  {
    if s != "" {
      assert EscapeAll(s)[0] == Escaped(s[0])[0] != '"';
    } else {
      assert EscapeAll(s) + ['"'] + rest == ['"'] + rest;
    }
  }

  // ---- Keys ----

  lemma {:induction false} BareLengthOf(key: string, rest: string)
    requires forall k :: 0 <= k < |key| ==> IsBare(key[k])
    requires rest == "" || !IsBare(rest[0])
    ensures BareLength(key + rest) == |key|
  {
    if key == "" {
      assert key + rest == rest;
    } else {
      BareLengthOf(key[1..], rest);
      assert (key + rest)[1..] == key[1..] + rest;
    }
  }

  /** The first character outside ASCII ends a bare key early. */
  lemma {:induction false} BareLengthStops(key: string, rest: string)
    requires exists k :: 0 <= k < |key| && !IsBare(key[k])
    ensures var n := BareLength(key + rest); n < |key| && !IsBare(key[n])
  {
    assert (key + rest)[0] == key[0];
    if IsBare(key[0]) {
      var k :| 0 <= k < |key| && !IsBare(key[k]);
      assert !IsBare(key[1..][k - 1]);
      assert (key + rest)[1..] == key[1..] + rest;
      BareLengthStops(key[1..], rest);
    }
  }

  /** A character that can follow a key: a blank, a dot or a closing bracket. */
  predicate EndsKey(c: char) { c == ' ' || c == '.' || c == ']' }

  /** A clean key is read back; after any other, nothing is read, or a character outside ASCII is next. */
  lemma KeyRoundTrip(alnum: Alnum, key: string, rest: string)
    requires rest != "" && EndsKey(rest[0])
    ensures CleanKey(alnum, key) ==> ReadKey(KeyText(alnum, key) + rest) == Got(key, rest)
    ensures !CleanKey(alnum, key) ==>
              (var r := ReadKey(KeyText(alnum, key) + rest); r.Bad? || (r.rest != "" && r.rest[0] >= '\U{0080}'))
  {
    var text := KeyText(alnum, key) + rest;
    if !WrittenBare(alnum, key) {
      QuotedRoundTrip(key, rest);
    } else {
      assert KeepsBare(alnum, key[0]) && text[0] == key[0];
      if CleanKey(alnum, key) {
        forall k | 0 <= k < |key| ensures IsBare(key[k]) { assert KeepsBare(alnum, key[k]); }
        BareLengthOf(key, rest);
        assert text[..|key|] == key && text[|key|..] == rest;
      } else {
        var k :| 0 <= k < |key| && key[k] >= '\U{0080}';
        assert !IsBare(key[k]);
        BareLengthStops(key, rest);
        var n := BareLength(text);
        assert KeepsBare(alnum, key[n]) && text[n..][0] == key[n];
      }
    }
  }

  // ---- Numbers ----

  lemma {:induction false} DigitsAreDigits(n: nat)
    ensures Digits(n) != "" && forall k :: 0 <= k < |Digits(n)| ==> IsDigit(Digits(n)[k])
    ensures Digits(n)[0] == '0' ==> n == 0
  {
    if n >= 10 { DigitsAreDigits(n / 10); }
  }

  lemma NatOfLast(s: string, last: char)
    requires IsDigit(last) && forall k :: 0 <= k < |s| ==> IsDigit(s[k])
    ensures NatOf(s + [last]) == NatOf(s) * 10 + (last as nat - '0' as nat)
  {
    assert (s + [last])[..|s|] == s;
  }

  lemma {:induction false} DigitsRoundTrip(n: nat)
    ensures (forall k :: 0 <= k < |Digits(n)| ==> IsDigit(Digits(n)[k])) && NatOf(Digits(n)) == n
  {
    DigitsAreDigits(n);
    var last := '0' + (n % 10) as char;
    if n < 10 {
      NatOfLast("", last);
      assert Digits(n) == "" + [last];
    } else {
      DigitsRoundTrip(n / 10);
      NatOfLast(Digits(n / 10), last);
    }
  }

  lemma OneDigit(n: nat)
    ensures n < 10 ==> |Digits(n)| == 1
  {
  }

  lemma {:induction false} DigitsLengthOf(s: string, rest: string)
    requires forall k :: 0 <= k < |s| ==> IsDigit(s[k])
    requires rest == "" || !IsDigit(rest[0])
    ensures DigitsLength(s + rest) == |s|
  {
    if s == "" {
      assert s + rest == rest;
    } else {
      DigitsLengthOf(s[1..], rest);
      assert (s + rest)[1..] == s[1..] + rest;
    }
  }

  lemma NatRoundTrip(n: nat, rest: string)
    requires rest == "" || !IsDigit(rest[0])
    ensures ReadNat(Digits(n) + rest) == Got(n, rest)
    ensures IsDigit((Digits(n) + rest)[0])
  {
    DigitsRoundTrip(n);
    DigitsAreDigits(n);
    OneDigit(n);
    DigitsLengthOf(Digits(n), rest);
    var text := Digits(n) + rest;
    assert text[..|Digits(n)|] == Digits(n) && text[|Digits(n)|..] == rest && text[0] == Digits(n)[0];
  }

  /** What can follow a value: the end of the line, a comma or a closing bracket. */
  predicate EndsValue(rest: string) {
    rest == "" || rest[0] == ',' || rest[0] == ']'
  }

  lemma ReadUnsigned(text: string)
    requires text != "" && IsDigit(text[0])
    ensures ReadNumber(text) == ReadMagnitude(false, text)
  {
    assert text[0] != "inf"[0] && text[0] != "nan"[0];
  }

  lemma ReadNegative(text: string)
    requires text != "" && IsDigit(text[0])
    ensures ReadNumber(['-'] + text) == ReadMagnitude(true, text)
  {
    assert (['-'] + text)[1..] == text;
    assert text[0] != "inf"[0] && text[0] != "nan"[0];
  }

  lemma FractionRoundTrip(fraction: string, rest: string)
    requires AllDigits(fraction) && (rest == "" || (!IsDigit(rest[0]) && rest[0] != '.'))
    ensures ReadFraction(FractionText(fraction) + rest) == Got(fraction, rest)
  {
    if fraction == "" {
      assert FractionText(fraction) + rest == rest;
    } else {
      Regrouped(".", fraction, rest);
      DigitsLengthOf(fraction, rest);
      AfterPoint(fraction, rest);
    }
  }

  lemma AfterPoint(digits: string, rest: string)
    requires digits != "" && DigitsLength(digits + rest) == |digits| && AllDigits(digits)
    ensures ReadFraction("." + (digits + rest)) == Got(digits, rest)
  {
    assert ("." + (digits + rest))[1..] == digits + rest;
    assert (digits + rest)[..|digits|] == digits && (digits + rest)[|digits|..] == rest;
  }

  lemma TwoDigitsRoundTrip(n: nat)
    ensures AllDigits(TwoDigits(n)) && TwoDigits(n) != "" && NatOf(TwoDigits(n)) == n
  {
    DigitsRoundTrip(n);
    DigitsAreDigits(n);
    if n < 10 {
      var last := '0' + n as char;
      assert Digits(n) == [last] && TwoDigits(n) == "0" + [last];
      NatOfLast("0", last);
      NatOfLast("", '0');
      assert "" + ['0'] == "0";
    } else {
      assert TwoDigits(n) == Digits(n);
    }
  }

  lemma ExponentRoundTrip(exponent: Option<int>, rest: string)
    requires EndsValue(rest)
    ensures ReadExponent(ExponentText(exponent) + rest) == Got(exponent, rest)
  {
    if exponent.None? {
      assert ExponentText(exponent) + rest == rest;
    } else {
      var n := exponent.value;
      var sign, size := if n < 0 then '-' else '+', if n < 0 then -n else n;
      TwoDigitsRoundTrip(size);
      DigitsLengthOf(TwoDigits(size), rest);
      SignedExponent(sign, TwoDigits(size), rest);
      assert ExponentText(exponent) == ['e', sign] + TwoDigits(size);
      Regrouped(['e', sign], TwoDigits(size), rest);
    }
  }

  lemma Regrouped(a: string, b: string, c: string)
    ensures a + b + c == a + (b + c)
  {
  }

  lemma SignedExponent(sign: char, digits: string, rest: string)
    requires sign == '-' || sign == '+'
    requires AllDigits(digits) && digits != "" && DigitsLength(digits + rest) == |digits|
    ensures ReadExponent(['e', sign] + (digits + rest))
            == Got(Some(if sign == '-' then -(NatOf(digits) as int) else NatOf(digits)), rest)
  {
    var text := ['e', sign] + (digits + rest);
    assert text[2..] == digits + rest;
    assert (digits + rest)[..|digits|] == digits && (digits + rest)[|digits|..] == rest;
  }

  lemma ExponentStarts(exponent: Option<int>, rest: string)
    requires EndsValue(rest)
    ensures var text := ExponentText(exponent) + rest; text == "" || (!IsDigit(text[0]) && text[0] != '.')
  {
    if exponent.None? { assert ExponentText(exponent) + rest == rest; }
  }

  lemma FractionStarts(fraction: string, exponent: Option<int>, rest: string)
    requires EndsValue(rest)
    ensures var text := FractionText(fraction) + (ExponentText(exponent) + rest); text == "" || !IsDigit(text[0])
  {
    ExponentStarts(exponent, rest);
    if fraction == "" {
      assert FractionText(fraction) + (ExponentText(exponent) + rest) == ExponentText(exponent) + rest;
    }
  }

  lemma MagnitudeRoundTrip(negative: bool, whole: nat, fraction: string, exponent: Option<int>, rest: string)
    requires AllDigits(fraction) && EndsValue(rest)
    ensures ReadMagnitude(negative, Digits(whole) + (FractionText(fraction) + (ExponentText(exponent) + rest)))
            == if fraction == "" && exponent.None? then Got(Int(if negative then -(whole as int) else whole), rest)
               else Got(Float(Decimal(negative, whole, fraction, exponent)), rest)
  {
    ExponentStarts(exponent, rest);
    FractionStarts(fraction, exponent, rest);
    NatRoundTrip(whole, FractionText(fraction) + (ExponentText(exponent) + rest));
    FractionRoundTrip(fraction, ExponentText(exponent) + rest);
    ExponentRoundTrip(exponent, rest);
  }

  predicate StartsNumber(c: char) { c == '-' || c == 'i' || c == 'n' || IsDigit(c) }

  /** A written number, after its sign. */
  lemma SignedNumber(negative: bool, text: string)
    requires text != "" && IsDigit(text[0])
    ensures var written := (if negative then "-" else "") + text;
            ReadNumber(written) == ReadMagnitude(negative, text) && written != "" && StartsNumber(written[0])
  {
    if negative { ReadNegative(text); } else {
      ReadUnsigned(text);
      assert "" + text == text;
    }
  }

  lemma IntRoundTrip(n: int, rest: string)
    requires EndsValue(rest)
    ensures ReadNumber(IntText(n) + rest) == Got(Int(n), rest)
    ensures StartsNumber((IntText(n) + rest)[0])
  {
    var size := if n < 0 then -n else n;
    NatRoundTrip(size, rest);
    WholeRoundTrip(n < 0, size, rest);
    SignedNumber(n < 0, Digits(size) + rest);
    IntTextParts(n, size, rest);
  }

  lemma WholeRoundTrip(negative: bool, whole: nat, rest: string)
    requires EndsValue(rest)
    ensures ReadMagnitude(negative, Digits(whole) + rest) == Got(Int(if negative then -(whole as int) else whole), rest)
  {
    MagnitudeRoundTrip(negative, whole, "", None, rest);
    assert FractionText("") + (ExponentText(None) + rest) == rest;
  }

  lemma IntTextParts(n: int, size: nat, rest: string)
    requires size == if n < 0 then -n else n
    ensures IntText(n) + rest == (if n < 0 then "-" else "") + (Digits(size) + rest)
  {
    if n < 0 { Regrouped("-", Digits(size), rest); } else { assert "" + (Digits(size) + rest) == Digits(size) + rest; }
  }

  lemma FloatRoundTrip(f: FloatText, rest: string)
    requires EndsValue(rest)
    ensures ReadNumber(PartsText(f) + rest) == Got(Float(f), rest)
    ensures StartsNumber((PartsText(f) + rest)[0])
  {
    match f
    case Decimal(negative, whole, fraction, exponent) =>
      DecimalText(f, rest);
      MagnitudeRoundTrip(negative, whole, fraction, exponent, rest);
      DigitsStart(whole);
      SignedNumber(negative, Digits(whole) + (FractionText(fraction) + (ExponentText(exponent) + rest)));
    case _ => SpecialRoundTrip(f, rest);
  }

  lemma DecimalText(f: FloatText, rest: string)
    requires f.Decimal?
    ensures PartsText(f) + rest
            == (if f.negative then "-" else "")
               + (Digits(f.whole) + (FractionText(f.fraction) + (ExponentText(f.exponent) + rest)))
  {
    var sign := if f.negative then "-" else "";
    var a, b, c := Digits(f.whole), FractionText(f.fraction), ExponentText(f.exponent);
    Regrouped(b, c, rest);
    Regrouped(a, b + c, rest);
    Regrouped(sign, a + (b + c), rest);
  }

  lemma SpecialRoundTrip(f: FloatText, rest: string)
    requires !f.Decimal?
    ensures ReadNumber(PartsText(f) + rest) == Got(Float(f), rest)
    ensures PartsText(f) != "" && StartsNumber(PartsText(f)[0])
  {
    var word := if f.Infinite? then "inf" else "nan";
    assert (word + rest)[..3] == word && (word + rest)[3..] == rest;
    if f == Infinite(true) {
      assert PartsText(f) == "-inf";
      assert ("-inf" + rest)[1..] == word + rest;
    } else {
      assert PartsText(f) == word;
    }
  }

  // ---- Values ----

  /** The first character of a written value is not a blank and does not close a list. */
  lemma ValueStarts(v: Value, rest: string)
    ensures ValueText(v) != "" && (ValueText(v) + rest)[0] !in " \t]"
  {
    match v
    case Int(n) => DigitsStart(if n < 0 then -n else n);
    case Float(f) => if f.Decimal? { DigitsStart(f.whole); }
    case _ =>
  }

  lemma DigitsStart(n: nat)
    ensures Digits(n) != "" && IsDigit(Digits(n)[0])
  {
    DigitsAreDigits(n);
  }

  lemma BoolRoundTrip(on: bool, rest: string)
    ensures ReadValue(ValueText(Bool(on)) + rest) == Got(Bool(on), rest)
  {
    var word := if on then "true" else "false";
    var text := word + rest;
    assert text[0] == word[0] && text[..|word|] == word && text[|word|..] == rest;
  }

  lemma NumberRoundTrip(n: int, rest: string)
    requires EndsValue(rest)
    ensures ReadValue(ValueText(Int(n)) + rest) == Got(Int(n), rest)
  {
    IntRoundTrip(n, rest);
    ReadAsNumber(IntText(n) + rest);
  }

  lemma FloatIsRead(f: FloatText, rest: string)
    requires EndsValue(rest)
    ensures ReadValue(ValueText(Float(f)) + rest) == Got(Float(f), rest)
  {
    FloatRoundTrip(f, rest);
    ReadAsNumber(PartsText(f) + rest);
  }

  /** A text that starts like a number is read as one. */
  lemma ReadAsNumber(text: string)
    requires text != "" && StartsNumber(text[0])
    ensures ReadValue(text) == ReadNumber(text)
  {
    OtherWord(text, "true");
    OtherWord(text, "false");
  }

  lemma OtherWord(text: string, word: string)
    requires text != "" && word != "" && text[0] != word[0]
    ensures !StartsWith(text, word)
  {
    assert |word| <= |text| ==> text[..|word|][0] == text[0];
  }

  lemma {:induction false} ValueRoundTrip(v: Value, rest: string)
    requires EndsValue(rest)
    ensures ReadValue(ValueText(v) + rest) == if CleanValue(v) then Got(v, rest) else Bad
    decreases v, 1, 0
  {
    match v
    case Bool(on) => BoolRoundTrip(on, rest);
    case Int(n) => NumberRoundTrip(n, rest);
    case Float(f) => FloatIsRead(f, rest);
    case Str(s) => QuotedRoundTrip(s, rest);
    case List(items) =>
      ItemsRoundTrip(v, items, rest);
      ListRoundTrip(items, rest);
  }

  /** A list is read as its items are. */
  lemma ListRoundTrip(items: seq<Value>, rest: string)
    ensures ReadValue(ValueText(List(items)) + rest)
            == match ReadItems(ItemsText(items) + rest) case Bad => Bad case Got(read, after) => Got(List(read), after)
  {
    var text := ValueText(List(items)) + rest;
    assert text[0] == '[' && text[1..] == ItemsText(items) + rest;
    ItemsStart(items, rest);
  }

  lemma ItemsStart(items: seq<Value>, rest: string)
    ensures ItemsText(items) != "" && SkipBlank(ItemsText(items) + rest) == ItemsText(items) + rest
  {
    if items != [] {
      var tail := if |items| == 1 then "]" else ", " + ItemsText(items[1..]);
      ValueStarts(items[0], tail + rest);
      assert ItemsText(items) + rest == ValueText(items[0]) + (tail + rest);
    }
  }

  predicate CleanItems(items: seq<Value>) {
    forall k :: 0 <= k < |items| ==> CleanValue(items[k])
  }

  /** The last item, before the closing bracket. */
  lemma LastItem(text: string, v: Value, rest: string)
    requires text != "" && text[0] != ']' && ReadValue(text) in {Got(v, "]" + rest), Bad}
    ensures ReadItems(text) == if ReadValue(text).Bad? then Bad else Got([v], rest)
  {
    assert ("]" + rest)[1..] == rest;
  }

  /** An item with more to come. */
  lemma NextItem(text: string, v: Value, more: string)
    requires text != "" && text[0] != ']' && SkipBlank(more) == more
    requires ReadValue(text) in {Got(v, ", " + more), Bad}
    ensures ReadItems(text) == if ReadValue(text).Bad? then Bad else Prepended(v, ReadItems(more))
  {
    var next := ", " + more;
    assert next[1..] == " " + more && next[1..][1..] == more;
  }

  lemma {:induction false} ItemsRoundTrip(v: Value, items: seq<Value>, rest: string)
    requires v.List? && forall k :: 0 <= k < |items| ==> items[k] in v.items
    requires EndsValue(rest)
    ensures ReadItems(ItemsText(items) + rest) == if CleanItems(items) then Got(items, rest) else Bad
    decreases v, 0, |items|
  {
    var text := ItemsText(items) + rest;
    if items == [] {
      assert text[0] == ']' && text[1..] == rest;
    } else if |items| == 1 {
      assert text == ValueText(items[0]) + ("]" + rest);
      ValueStarts(items[0], "]" + rest);
      ValueRoundTrip(items[0], "]" + rest);
      LastItem(text, items[0], rest);
      assert items == [items[0]];
    } else {
      var more := ItemsText(items[1..]) + rest;
      assert text == ValueText(items[0]) + (", " + more);
      ValueStarts(items[0], ", " + more);
      ValueRoundTrip(items[0], ", " + more);
      ItemsStart(items[1..], rest);
      NextItem(text, items[0], more);
      ItemsRoundTrip(v, items[1..], rest);
      CleanItemsSplit(items);
    }
  }

  lemma CleanItemsSplit(items: seq<Value>)
    requires items != []
    ensures CleanItems(items) <==> CleanValue(items[0]) && CleanItems(items[1..])
    ensures items == [items[0]] + items[1..]
  {
    assert forall k :: 1 <= k < |items| ==> items[k] == items[1..][k - 1];
  }

  // ---- Lines ----

  lemma KeyStarts(alnum: Alnum, key: string, rest: string)
    ensures KeyText(alnum, key) != "" && (KeyText(alnum, key) + rest)[0] != '['
    ensures SkipBlank(KeyText(alnum, key) + rest) == KeyText(alnum, key) + rest
  {
    if WrittenBare(alnum, key) { assert KeepsBare(alnum, key[0]); }
  }

  /** The last part of a header. */
  lemma LastKey(alnum: Alnum, key: string)
    ensures ReadPath(KeyText(alnum, key) + "]") == if CleanKey(alnum, key) then Got([key], "") else Bad
  {
    KeyRoundTrip(alnum, key, "]");
  }

  /** A part of a header with more to come. */
  lemma NextKey(alnum: Alnum, key: string, more: string)
    requires SkipBlank(more) == more
    ensures ReadPath(KeyText(alnum, key) + ("." + more))
            == if CleanKey(alnum, key) then Prepended(key, ReadPath(more)) else Bad
  {
    KeyRoundTrip(alnum, key, "." + more);
    AfterDot(KeyText(alnum, key) + ("." + more), key, more);
  }

  lemma AfterDot(text: string, key: string, more: string)
    requires SkipBlank(more) == more
    ensures ReadKey(text) == Got(key, "." + more) ==> ReadPath(text) == Prepended(key, ReadPath(more))
  {
    assert ("." + more)[1..] == more;
  }

  lemma PathStarts(alnum: Alnum, path: seq<string>)
    requires path != []
    ensures SkipBlank(PathText(alnum, path)) == PathText(alnum, path)
  {
    KeyStarts(alnum, path[0], if |path| == 1 then "]" else "." + PathText(alnum, path[1..]));
  }

  lemma {:induction false} PathRoundTrip(alnum: Alnum, path: seq<string>)
    requires path != []
    ensures ReadPath(PathText(alnum, path)) == if CleanPath(alnum, path) then Got(path, "") else Bad
    decreases |path|
  {
    if |path| == 1 {
      LastKey(alnum, path[0]);
      assert path == [path[0]];
    } else {
      PathStarts(alnum, path[1..]);
      NextKey(alnum, path[0], PathText(alnum, path[1..]));
      PathRoundTrip(alnum, path[1..]);
      CleanPathSplit(alnum, path);
    }
  }

  lemma CleanPathSplit(alnum: Alnum, path: seq<string>)
    requires path != []
    ensures CleanPath(alnum, path) <==> CleanKey(alnum, path[0]) && CleanPath(alnum, path[1..])
    ensures path == [path[0]] + path[1..]
  {
    assert forall k :: 1 <= k < |path| ==> path[k] == path[1..][k - 1];
  }

  lemma HeaderRoundTrip(alnum: Alnum, path: seq<string>)
    requires path != []
    ensures ReadLine(LineText(alnum, Header(path))) == if CleanPath(alnum, path) then Some(Header(path)) else None
  {
    var text := LineText(alnum, Header(path));
    assert text[0] == '[' && text[1..] == PathText(alnum, path);
    PathStarts(alnum, path);
    PathRoundTrip(alnum, path);
  }

  lemma AssignmentRoundTrip(key: string, v: Value)
    ensures ReadAssignment(key, SkipBlank(" = " + ValueText(v))) == if CleanValue(v) then Some(Pair(key, v)) else None
  {
    var value := ValueText(v);
    assert value + "" == value;
    ValueStarts(v, "");
    SkipOne("= " + value);
    SkipOne(value);
    assert " = " + value == " " + ("= " + value) && ("= " + value)[1..] == " " + value;
    ValueRoundTrip(v, "");
  }

  lemma SkipOne(text: string)
    requires text != "" && text[0] != ' ' && text[0] != '\t'
    ensures SkipBlank(" " + text) == text
  {
    assert (" " + text)[1..] == text;
  }

  lemma PairRoundTrip(alnum: Alnum, key: string, v: Value)
    ensures ReadLine(LineText(alnum, Pair(key, v)))
            == if CleanKey(alnum, key) && CleanValue(v) then Some(Pair(key, v)) else None
  {
    var rest := " = " + ValueText(v);
    var text := LineText(alnum, Pair(key, v));
    assert text == KeyText(alnum, key) + rest;
    KeyStarts(alnum, key, rest);
    assert text[0] in text && text[0] != '[';
    KeyRoundTrip(alnum, key, rest);
    AssignmentRoundTrip(key, v);
  }

  /** A written line is read back as itself when it is clean, and cannot be read otherwise. */
  lemma LineRoundTrip(alnum: Alnum, line: Line)
    requires line.Header? ==> line.path != []
    ensures ReadLine(LineText(alnum, line)) == if CleanLine(alnum, line) then Some(line) else None
  {
    match line
    case Blank =>
    case Header(path) => HeaderRoundTrip(alnum, path);
    case Pair(key, value) => PairRoundTrip(alnum, key, value);
  }

  // ---- A line stays one line ----

  lemma {:induction false} EscapesHoldNoNewline(s: string)
    ensures '\n' !in EscapeAll(s)
  {
    if s != "" { EscapesHoldNoNewline(s[1..]); }
  }

  lemma KeyHoldsNoNewline(alnum: Alnum, key: string)
    ensures '\n' !in KeyText(alnum, key)
  {
    EscapesHoldNoNewline(key);
    if WrittenBare(alnum, key) {
      forall k | 0 <= k < |key| ensures key[k] != '\n' { assert KeepsBare(alnum, key[k]); }
    }
  }

  lemma {:induction false} PathHoldsNoNewline(alnum: Alnum, path: seq<string>)
    ensures '\n' !in PathText(alnum, path)
    ensures PathText(alnum, path) != "" && PathText(alnum, path)[|PathText(alnum, path)| - 1] == ']'
    decreases |path|
  {
    if path != [] {
      KeyHoldsNoNewline(alnum, path[0]);
      if |path| == 1 {
        ClosedWithoutNewline(KeyText(alnum, path[0]), "]");
      } else {
        PathHoldsNoNewline(alnum, path[1..]);
        ClosedWithoutNewline(".", PathText(alnum, path[1..]));
        ClosedWithoutNewline(KeyText(alnum, path[0]), "." + PathText(alnum, path[1..]));
      }
    }
  }

  lemma ClosedWithoutNewline(a: string, b: string)
    requires '\n' !in a && '\n' !in b && b != "" && b[|b| - 1] == ']'
    ensures '\n' !in a + b && (a + b)[|a + b| - 1] == ']'
  {
  }

  /** A value's text holds no newline, and does not end in white space. */
  predicate OneLine(s: string) {
    '\n' !in s && s != "" && s[|s| - 1] > ' ' && s[|s| - 1] < Delete
  }

  lemma DigitsAreOneLine(s: string)
    requires AllDigits(s) && s != ""
    ensures OneLine(s)
  {
    assert IsDigit(s[|s| - 1]);
  }

  lemma OneLineAfter(a: string, b: string)
    requires '\n' !in a && OneLine(b)
    ensures OneLine(a + b)
  {
    assert (a + b)[|a + b| - 1] == b[|b| - 1];
  }

  lemma FloatIsOneLine(f: FloatText)
    ensures OneLine(PartsText(f))
  {
    match f
    case Infinite(negative) => OneLineAfter(if negative then "-" else "", "inf");
    case NotANumber =>
    case Decimal(negative, whole, fraction, exponent) =>
      DigitsAreDigits(whole);
      DigitsAreOneLine(Digits(whole));
      TailIsOneLine(f);
      OneLineAfter(Digits(whole), FractionText(fraction) + ExponentText(exponent));
      OneLineAfter(if negative then "-" else "", Digits(whole) + (FractionText(fraction) + ExponentText(exponent)));
  }

  lemma TailIsOneLine(f: FloatText)
    requires f.Decimal?
    ensures OneLine(FractionText(f.fraction) + ExponentText(f.exponent))
  {
    if f.fraction != "" {
      DigitsAreOneLine(f.fraction);
      OneLineAfter(".", f.fraction);
    }
    if f.exponent.Some? {
      var n := f.exponent.value;
      var size := if n < 0 then -n else n;
      TwoDigitsRoundTrip(size);
      DigitsAreOneLine(TwoDigits(size));
      OneLineAfter(if n < 0 then "e-" else "e+", TwoDigits(size));
      OneLineAfter(FractionText(f.fraction), ExponentText(f.exponent));
    } else {
      assert FractionText(f.fraction) + ExponentText(f.exponent) == FractionText(f.fraction);
    }
  }

  lemma {:induction false} ValueIsOneLine(v: Value)
    ensures OneLine(ValueText(v))
    decreases v, 1, 0
  {
    match v
    case Bool(on) =>
    case Int(n) =>
      DigitsAreDigits(if n < 0 then -n else n);
      DigitsAreOneLine(Digits(if n < 0 then -n else n));
    case Float(f) => FloatIsOneLine(f);
    case Str(s) => EscapesHoldNoNewline(s);
    case List(items) => ItemsAreOneLine(v, items);
  }

  lemma {:induction false} ItemsAreOneLine(v: Value, items: seq<Value>)
    requires v.List? && forall k :: 0 <= k < |items| ==> items[k] in v.items
    ensures OneLine(ItemsText(items))
    decreases v, 0, |items|
  {
    if items != [] {
      ValueIsOneLine(items[0]);
      if |items| > 1 { ItemsAreOneLine(v, items[1..]); }
    }
  }

  lemma LineIsOneLine(alnum: Alnum, line: Line)
    ensures '\n' !in LineText(alnum, line)
    ensures line.Blank? <==> LineText(alnum, line) == ""
    ensures !line.Blank? ==> OneLine(LineText(alnum, line))
  {
    match line
    case Blank =>
    case Header(path) => PathHoldsNoNewline(alnum, path);
    case Pair(key, value) => KeyHoldsNoNewline(alnum, key); ValueIsOneLine(value);
  }
}
