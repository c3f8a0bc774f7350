/** The text codecs under the boarding code: separators, decimal integers and base64url. */
module Text {
  import opened Base

  // ----- split and join

  function Join(parts: seq<string>, sep: char): string {
    if |parts| == 0 then ""
    else if |parts| == 1 then parts[0]
    else parts[0] + [sep] + Join(parts[1..], sep)
  }

  /** Never empty: text without the separator is its own only part. */
  function Split(s: string, sep: char): (parts: seq<string>)
    ensures |parts| > 0
    ensures forall p :: p in parts ==> sep !in p
  {
    if sep !in s then [s]
    else
      var i := IndexOf(s, sep);
      [s[..i]] + Split(s[i + 1..], sep)
  }

  function IndexOf(s: string, c: char): (i: nat)
    requires c in s
    ensures i < |s| && s[i] == c && c !in s[..i]
  {
    if s[0] == c then 0
    else
      assert s == [s[0]] + s[1..];
      var j := IndexOf(s[1..], c);
      assert s[..j + 1] == [s[0]] + s[1..][..j];
      j + 1
  }

  lemma {:induction false} IndexOfSeparator(head: string, rest: string, sep: char)
    requires sep !in head
    ensures var s := head + [sep] + rest; sep in s && IndexOf(s, sep) == |head|
  {
    var s := head + [sep] + rest;
    assert s[|head|] == sep;
    if head != "" {
      IndexOfSeparator(head[1..], rest, sep);
      assert s[1..] == head[1..] + [sep] + rest;
      assert s[0] in head;
    }
  }

  lemma SplitAtFirst(head: string, rest: string, sep: char)
    requires sep !in head
    ensures Split(head + [sep] + rest, sep) == [head] + Split(rest, sep)
  {
    IndexOfSeparator(head, rest, sep);
    var s := head + [sep] + rest;
    assert s[..|head|] == head && s[|head| + 1..] == rest;
  }

  lemma {:induction false} SplitJoin(parts: seq<string>, sep: char)
    requires |parts| > 0 && forall p :: p in parts ==> sep !in p
    ensures Split(Join(parts, sep), sep) == parts
  {
    if |parts| > 1 {
      forall p | p in parts[1..] ensures sep !in p {
        assert p in parts;
      }
      SplitAtFirst(parts[0], Join(parts[1..], sep), sep);
      SplitJoin(parts[1..], sep);
      assert parts == [parts[0]] + parts[1..];
    }
  }

  // ----- decimal integers

  function DigitChar(d: nat): char
    requires d < 10
  {
    ('0' as int + d) as char
  }

  /** `str(n)` for a natural number. */
  function Digits(n: nat): (s: string)
    ensures |s| > 0 && forall c :: c in s ==> '0' <= c <= '9'
  {
    if n < 10 then [DigitChar(n)] else Digits(n / 10) + [DigitChar(n % 10)]
  }

  /** `str(n)`. */
  function Decimal(n: int): string {
    if n < 0 then "-" + Digits(-n) else Digits(n)
  }

  predicate IsSpace(c: char) {
    c == ' ' || '\t' <= c <= '\r'
  }

  function Strip(s: string): string {
    if s == "" then ""
    else if IsSpace(s[0]) then Strip(s[1..])
    else if IsSpace(s[|s| - 1]) then Strip(s[..|s| - 1])
    else s
  }

  predicate Spaces(s: string) {
    forall k :: 0 <= k < |s| ==> IsSpace(s[k])
  }

  /** The slice from i to j, space around it and none at its ends. */
  predicate Trimmed(s: string, i: nat, j: nat) {
    && i <= j <= |s| && Spaces(s[..i]) && Spaces(s[j..])
    && (i < j ==> !IsSpace(s[i]) && !IsSpace(s[j - 1]))
  }

  lemma SpaceInFront(s: string, i: nat, j: nat)
    requires s != "" && IsSpace(s[0]) && Trimmed(s[1..], i, j)
    ensures Trimmed(s, i + 1, j + 1) && s[i + 1..j + 1] == s[1..][i..j]
  {
    assert s[..i + 1] == [s[0]] + s[1..][..i];
    assert s[j + 1..] == s[1..][j..];
  }

  lemma SpaceBehind(s: string, i: nat, j: nat)
    requires s != "" && IsSpace(s[|s| - 1]) && Trimmed(s[..|s| - 1], i, j)
    ensures Trimmed(s, i, j) && s[i..j] == s[..|s| - 1][i..j]
  {
    assert s[..i] == s[..|s| - 1][..i];
    assert s[j..] == s[..|s| - 1][j..] + [s[|s| - 1]];
  }

  /** What is taken off is space at either end, and what stays neither starts nor ends with any. */
  lemma {:induction false} StripTrims(s: string) returns (i: nat, j: nat)
    ensures Trimmed(s, i, j) && Strip(s) == s[i..j]
    decreases |s|
  {
    if s == "" {
      i, j := 0, 0;
    } else if IsSpace(s[0]) {
      var m, n := StripTrims(s[1..]);
      SpaceInFront(s, m, n);
      i, j := m + 1, n + 1;
    } else if IsSpace(s[|s| - 1]) {
      i, j := StripTrims(s[..|s| - 1]);
      SpaceBehind(s, i, j);
    } else {
      i, j := 0, |s|;
      assert s[0..|s|] == s;
    }
  }

  /** Digits with single underscores between them. */
  function ParseDigits(s: string): Option<nat> {
    if s == "" || !('0' <= s[|s| - 1] <= '9') then None
    else
      var d: nat := s[|s| - 1] as int - '0' as int;
      var front := s[..|s| - 1];
      if front == "" then Some(d)
      else
        var lead := if front[|front| - 1] == '_' then front[..|front| - 1] else front;
        match ParseDigits(lead)
        case Some(n) => Some(10 * n + d)
        case None => None
  }

  /** `int(text)` on ASCII text. */
  function ParseInt(text: string): Option<int> {
    var s := Strip(text);
    if s != "" && (s[0] == '-' || s[0] == '+') then
      match ParseDigits(s[1..])
      case Some(n) => Some(n as int * (if s[0] == '-' then -1 else 1))
      case None => None
    else
      match ParseDigits(s)
      case Some(n) => Some(n)
      case None => None
  }

  lemma {:induction false} ParseDigitsRoundTrip(n: nat)
    ensures ParseDigits(Digits(n)) == Some(n)
  {
    if n >= 10 {
      ParseDigitsRoundTrip(n / 10);
      var front := Digits(n / 10);
      assert Digits(n)[..|Digits(n)| - 1] == front;
      assert front[|front| - 1] in front;
    }
  }

  lemma ParseIntRoundTrip(n: int)
    ensures ParseInt(Decimal(n)) == Some(n)
  {
    var s := Decimal(n);
    ParseDigitsRoundTrip(if n < 0 then -n else n);
    assert s[|s| - 1] in Digits(if n < 0 then -n else n);
    assert n >= 0 ==> s[0] in Digits(n);
    assert n < 0 ==> s[1..] == Digits(-n);
  }

  lemma DecimalHasNo(n: int, c: char)
    requires c != '-' && !('0' <= c <= '9')
    ensures c !in Decimal(n)
  {}

  // ----- base64url, section 5 of RFC 4648

  type byte = b: int | 0 <= b < 256

  function Symbol(v: nat): char
    requires v < 64
  {
    if v < 26 then ('A' as int + v) as char
    else if v < 52 then ('a' as int + (v - 26)) as char
    else if v < 62 then ('0' as int + (v - 52)) as char
    else if v == 62 then '-' else '_'
  }

  /** The sextet a character stands for; the standard alphabet's `+` and `/` are read too. */
  function Sextet(c: char): (v: Option<nat>)
    ensures v.Some? ==> v.value < 64
  {
    if 'A' <= c <= 'Z' then Some(c as int - 'A' as int)
    else if 'a' <= c <= 'z' then Some(c as int - 'a' as int + 26)
    else if '0' <= c <= '9' then Some(c as int - '0' as int + 52)
    else if c == '-' || c == '+' then Some(62)
    else if c == '_' || c == '/' then Some(63)
    else None
  }

  lemma SextetOfSymbol(v: nat)
    requires v < 64
    ensures Sextet(Symbol(v)) == Some(v) && Symbol(v) != '=' && Symbol(v) != '.'
  {}

  /** `urlsafe_b64encode`. */
  function B64(raw: seq<byte>): string {
    if raw == [] then ""
    else if |raw| == 1 then [Symbol(raw[0] / 4), Symbol(raw[0] % 4 * 16), '=', '=']
    else if |raw| == 2 then
      [Symbol(raw[0] / 4), Symbol(raw[0] % 4 * 16 + raw[1] / 16), Symbol(raw[1] % 16 * 4), '=']
    else
      [Symbol(raw[0] / 4), Symbol(raw[0] % 4 * 16 + raw[1] / 16), Symbol(raw[1] % 16 * 4 + raw[2] / 64),
       Symbol(raw[2] % 64)] + B64(raw[3..])
  }

  /** The bits carried over after `quad` sextets of a group fit in what those sextets left. */
  predicate Carry(quad: nat, left: nat) {
    quad < 4 && left < (if quad == 0 then 1 else if quad == 1 then 64 else if quad == 2 then 16 else 4)
  }

  /** `urlsafe_b64decode`, which skips foreign characters, ignores early padding and stops at
      complete padding. `None` is the incorrect-padding error. */
  function Decode(s: string, quad: nat, left: nat, pads: nat): Option<seq<byte>>
    requires Carry(quad, left)
    decreases |s|
  {
    if s == "" then (if quad == 0 then Some([]) else None)
    else if s[0] == '=' then
      if quad >= 2 && quad + pads + 1 >= 4 then Some([])
      else Decode(s[1..], quad, left, if quad >= 2 then pads + 1 else pads)
    else
      match Sextet(s[0])
      case None => Decode(s[1..], quad, left, pads)
      case Some(v) =>
        if quad == 0 then Decode(s[1..], 1, v, 0)
        else if quad == 1 then Prepend(left * 4 + v / 16, Decode(s[1..], 2, v % 16, 0))
        else if quad == 2 then Prepend(left * 16 + v / 4, Decode(s[1..], 3, v % 4, 0))
        else Prepend(left * 64 + v, Decode(s[1..], 0, 0, 0))
  }

  function Prepend(b: byte, rest: Option<seq<byte>>): Option<seq<byte>> {
    match rest
    case Some(bytes) => Some([b] + bytes)
    case None => None
  }

  function Unb64(s: string): Option<seq<byte>> {
    Decode(s, 0, 0, 0)
  }

  /** One symbol read in each position of a group. */
  lemma DecodeSymbol(v: nat, rest: string, quad: nat, left: nat)
    requires v < 64 && Carry(quad, left)
    ensures Decode([Symbol(v)] + rest, quad, left, 0) ==
      if quad == 0 then Decode(rest, 1, v, 0)
      else if quad == 1 then Prepend(left * 4 + v / 16, Decode(rest, 2, v % 16, 0))
      else if quad == 2 then Prepend(left * 16 + v / 4, Decode(rest, 3, v % 4, 0))
      else Prepend(left * 64 + v, Decode(rest, 0, 0, 0))
  {
    SextetOfSymbol(v);
    assert ([Symbol(v)] + rest)[1..] == rest;
  }

  /** Two symbols open a group with a whole byte and four bits over. */
  lemma DecodeTwo(a: nat, b: nat, rest: string)
    requires a < 64 && b < 64
    ensures Decode([Symbol(a), Symbol(b)] + rest, 0, 0, 0) == Prepend(a * 4 + b / 16, Decode(rest, 2, b % 16, 0))
  {
    assert [Symbol(a), Symbol(b)] + rest == [Symbol(a)] + ([Symbol(b)] + rest);
    DecodeSymbol(a, [Symbol(b)] + rest, 0, 0);
    DecodeSymbol(b, rest, 1, a);
  }

  lemma PaddingCompletes(left: nat)
    requires left < 16
    ensures Decode("==", 2, left, 0) == Some([])
    ensures left < 4 ==> Decode("=", 3, left, 0) == Some([])
  {
    assert "=="[1..] == "=";
    assert Decode("=", 2, left, 1) == Some([]);
  }

  /** Cutting three bytes into sextets and gluing them back. */
  lemma Sextets(x: byte, y: byte, z: byte)
    ensures var a, b, c, d := x / 4, x % 4 * 16 + y / 16, y % 16 * 4 + z / 64, z % 64;
      && a < 64 && b < 64 && c < 64 && d < 64
      && a * 4 + b / 16 == x && b % 16 * 16 + c / 4 == y && c % 4 * 64 + d == z
  {}

  lemma OneByteRoundTrip(x: byte)
    ensures Unb64(B64([x])) == Some([x])
  {
    var a, b := x / 4, x % 4 * 16;
    assert B64([x]) == [Symbol(a), Symbol(b)] + "==";
    DecodeTwo(a, b, "==");
    PaddingCompletes(b % 16);
    assert [x] + [] == [x];
  }

  lemma TwoBytesRoundTrip(x: byte, y: byte)
    ensures Unb64(B64([x, y])) == Some([x, y])
  {
    var a, b, c := x / 4, x % 4 * 16 + y / 16, y % 16 * 4;
    assert B64([x, y]) == [Symbol(a), Symbol(b)] + ([Symbol(c)] + "=");
    DecodeTwo(a, b, [Symbol(c)] + "=");
    DecodeSymbol(c, "=", 2, b % 16);
    PaddingCompletes(c % 4);
    Sextets(x, y, 0);
    assert [x] + ([y] + []) == [x, y];
  }

  lemma DecodeGroup(a: nat, b: nat, c: nat, d: nat, rest: string)
    requires a < 64 && b < 64 && c < 64 && d < 64
    ensures Unb64([Symbol(a), Symbol(b), Symbol(c), Symbol(d)] + rest)
         == Prepend(a * 4 + b / 16, Prepend(b % 16 * 16 + c / 4, Prepend(c % 4 * 64 + d, Unb64(rest))))
  {
    assert [Symbol(a), Symbol(b), Symbol(c), Symbol(d)] + rest
        == [Symbol(a), Symbol(b)] + ([Symbol(c)] + ([Symbol(d)] + rest));
    DecodeTwo(a, b, [Symbol(c)] + ([Symbol(d)] + rest));
    DecodeSymbol(c, [Symbol(d)] + rest, 2, b % 16);
    DecodeSymbol(d, rest, 3, c % 4);
  }

  lemma {:induction false} B64RoundTrip(raw: seq<byte>)
    ensures Unb64(B64(raw)) == Some(raw)
  {
    if |raw| == 1 {
      OneByteRoundTrip(raw[0]);
      assert raw == [raw[0]];
    } else if |raw| == 2 {
      TwoBytesRoundTrip(raw[0], raw[1]);
      assert raw == [raw[0], raw[1]];
    } else if |raw| > 2 {
      B64RoundTrip(raw[3..]);
      var x, y, z := raw[0], raw[1], raw[2];
      Sextets(x, y, z);
      DecodeGroup(x / 4, x % 4 * 16 + y / 16, y % 16 * 4 + z / 64, z % 64, B64(raw[3..]));
      assert raw == [raw[0]] + ([raw[1]] + ([raw[2]] + raw[3..]));
    }
  }

  lemma {:induction false} B64HasNoDot(raw: seq<byte>)
    ensures '.' !in B64(raw)
  {
    if |raw| > 0 {
      SextetOfSymbol(raw[0] / 4);
      if |raw| == 1 {
        SextetOfSymbol(raw[0] % 4 * 16);
      } else {
        SextetOfSymbol(raw[0] % 4 * 16 + raw[1] / 16);
        if |raw| == 2 {
          SextetOfSymbol(raw[1] % 16 * 4);
        } else {
          SextetOfSymbol(raw[1] % 16 * 4 + raw[2] / 64);
          SextetOfSymbol(raw[2] % 64);
          B64HasNoDot(raw[3..]);
        }
      }
    }
  }
}
