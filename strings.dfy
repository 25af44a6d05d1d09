/**
 * Text helpers shared by the model: C# nullable strings, the few `string`
 * members the program uses (`IsNullOrWhiteSpace`, `Split`, `IndexOf`,
 * `TrimStart`, `Trim`, `ToLowerInvariant`), `int.TryParse`, decimal rendering
 * of a count and two-digit hexadecimal bytes.
 *
 * Characters are compared ordinally and case mapping covers ASCII letters only.
 * `int.TryParse` allows only the space and U+0009 to U+000D around a number,
 * a narrower set than `char.IsWhiteSpace`, so it has its own trimming.
 */
module Strings {

  datatype Option<+T> = None | Some(value: T)

  /** A C# `string?`: `None` is `null`. */
  type NString = Option<string>

  // ---------------------------------------------------------------------------
  // Characters

  /** `char.IsWhiteSpace` for the ASCII and Latin-1 white-space characters. */
  predicate IsWhiteSpace(c: char)
  {
    c == ' ' || (9 <= c as int <= 13) || c as int == 0x85 || c as int == 0xA0
  }

  predicate IsDigit(c: char)
  {
    '0' <= c <= '9'
  }

  function DigitValue(c: char): (d: nat)
    requires IsDigit(c)
    ensures d < 10
  {
    c as int - '0' as int
  }

  function DigitChar(d: nat): (c: char)
    requires d < 10
    ensures IsDigit(c) && DigitValue(c) == d
  {
    ('0' as int + d) as char
  }

  /** `char.ToLowerInvariant` on ASCII letters; every other character is kept. */
  function LowerChar(c: char): char
  {
    if 'A' <= c <= 'Z' then (c as int - 'A' as int + 'a' as int) as char else c
  }

  /** `string.ToLowerInvariant`, for ASCII letters. */
  function Lower(s: string): (r: string)
    ensures |r| == |s|
    ensures forall i :: 0 <= i < |r| ==> !('A' <= r[i] <= 'Z')
    ensures forall i :: 0 <= i < |s| && 'A' <= s[i] <= 'Z' ==> r[i] as int == s[i] as int + 32
    ensures forall i :: 0 <= i < |s| && !('A' <= s[i] <= 'Z') ==> r[i] == s[i]
  {
    seq(|s|, i requires 0 <= i < |s| => LowerChar(s[i]))
  }

  /** Text without upper-case ASCII letters is its own lower-case form. */
  lemma LowerIdentity(s: string)
    requires forall i :: 0 <= i < |s| ==> !('A' <= s[i] <= 'Z')
    ensures Lower(s) == s
  {
  }

  /** Two characters that are equal once ASCII case is ignored: the same, or one the upper-case ASCII form of the other. */
  predicate SameIgnoringCase(a: char, b: char)
  {
    a == b || ('A' <= a <= 'Z' && b as int == a as int + 32) || ('A' <= b <= 'Z' && a as int == b as int + 32)
  }

  /** Lower-casing is a canonical form: two strings lower-case to the same text exactly when they agree position by position up to ASCII case. */
  lemma LowerEqualIgnoringCase(s: string, t: string)
    ensures Lower(s) == Lower(t) <==> |s| == |t| && forall i :: 0 <= i < |s| ==> SameIgnoringCase(s[i], t[i])
  {
  }

  /** Lower-casing twice is lower-casing once. */
  lemma LowerIdempotent(s: string)
    ensures Lower(Lower(s)) == Lower(s)
  {
  }

  function LowerOpt(s: NString): NString
  {
    match s
    case None => None
    case Some(v) => Some(Lower(v))
  }

  // ---------------------------------------------------------------------------
  // Predicates on strings

  predicate AllWhiteSpace(s: string)
  {
    forall i :: 0 <= i < |s| ==> IsWhiteSpace(s[i])
  }

  /** `string.IsNullOrWhiteSpace`. */
  predicate IsNullOrWhiteSpace(s: NString)
  {
    s.None? || AllWhiteSpace(s.value)
  }

  /** `string.IsNullOrEmpty`. */
  predicate IsNullOrEmpty(s: NString)
  {
    s.None? || s.value == ""
  }

  /** `s.StartsWith(c.ToString())`, compared ordinally. */
  predicate StartsWith(s: string, c: char)
  {
    |s| > 0 && s[0] == c
  }

  // ---------------------------------------------------------------------------
  // Searching, splitting and trimming

  /** `s.IndexOf(c)`: the first index of `c`, or -1. */
  function IndexOf(s: string, c: char): (k: int)
    ensures -1 <= k < |s|
    ensures k == -1 <==> c !in s
    ensures 0 <= k ==> s[k] == c && c !in s[..k]
  {
    if s == [] then -1
    else if s[0] == c then 0
    else
      var k := IndexOf(s[1..], c);
      if k == -1 then -1 else k + 1
  }

  /** The first separator of `s` is at `k` when `s[k]` is one and none comes before it. */
  lemma IndexOfAt(s: string, k: nat, c: char)
    requires k < |s| && s[k] == c && c !in s[..k]
    ensures IndexOf(s, c) == k
  {
    assert s[k] in s;
    var j := IndexOf(s, c);
    assert forall i :: 0 <= i < k ==> s[..k][i] == s[i];
  }

  /** `s.Split(sep)`: the pieces between separators, empty pieces kept. */
  function Split(s: string, sep: char): (r: seq<string>)
    ensures |r| >= 1
    ensures forall i :: 0 <= i < |r| ==> sep !in r[i]
    decreases |s|
  {
    var k := IndexOf(s, sep);
    if k < 0 then [s]
    else
      var rest := Split(s[k + 1..], sep);
      assert forall i :: 0 < i <= |rest| ==> ([s[..k]] + rest)[i] == rest[i - 1];
      [s[..k]] + rest
  }

  /** `Split` gives one piece more than there are separators. */
  lemma {:induction false} SplitCount(s: string, sep: char)
    ensures |Split(s, sep)| == multiset(s)[sep] + 1
    decreases |s|
  {
    var k := IndexOf(s, sep);
    if k < 0 {
      assert multiset(s)[sep] == 0;
    } else {
      Reassemble(s, k);
      assert multiset(s) == multiset(s[..k]) + multiset{sep} + multiset(s[k + 1..]) by {
        assert s == s[..k] + [s[k]] + s[k + 1..];
      }
      assert multiset(s[..k])[sep] == 0;
      SplitCount(s[k + 1..], sep);
    }
  }

  /** The inverse of `Split`: the pieces glued back with the separator. */
  function Join(parts: seq<string>, sep: char): string
  {
    if parts == [] then ""
    else if |parts| == 1 then parts[0]
    else parts[0] + [sep] + Join(parts[1..], sep)
  }

  /** Splitting and joining again gives back the original string. */
  lemma {:induction false} JoinSplit(s: string, sep: char)
    ensures Join(Split(s, sep), sep) == s
    decreases |s|
  {
    var k := IndexOf(s, sep);
    if k >= 0 {
      var rest := s[k + 1..];
      var tail := Split(rest, sep);
      assert Split(s, sep) == [s[..k]] + tail;
      JoinCons(s[..k], tail, sep);
      JoinSplit(rest, sep);
      Reassemble(s, k);
    }
  }

  lemma Reassemble(s: string, k: nat)
    requires k < |s|
    ensures s[..k] + [s[k]] + s[k + 1..] == s
  {
  }

  lemma JoinCons(head: string, tail: seq<string>, sep: char)
    requires tail != []
    ensures Join([head] + tail, sep) == head + [sep] + Join(tail, sep)
  {
    assert ([head] + tail)[1..] == tail;
  }

  /** The non-empty elements of `parts`, in order. */
  function NonEmpty(parts: seq<string>): (r: seq<string>)
    ensures forall i :: 0 <= i < |r| ==> r[i] != "" && r[i] in parts
    ensures forall p :: p in parts && p != "" ==> p in r
  {
    if parts == [] then []
    else if parts[0] == "" then NonEmpty(parts[1..])
    else [parts[0]] + NonEmpty(parts[1..])
  }

  /** `s.Split(sep, StringSplitOptions.RemoveEmptyEntries)`. */
  function SplitRemoveEmpty(s: string, sep: char): (r: seq<string>)
    ensures forall i :: 0 <= i < |r| ==> r[i] != "" && sep !in r[i]
    ensures forall p :: p in r <==> p in Split(s, sep) && p != ""
  {
    NonEmpty(Split(s, sep))
  }

  /** `s.Split(sep, 2)`: at most two pieces, cut at the first separator. */
  function SplitFirst(s: string, sep: char): (r: seq<string>)
    ensures 1 <= |r| <= 2
    ensures |r| == 1 <==> sep !in s
    ensures |r| == 1 ==> r[0] == s
    ensures |r| == 2 ==> sep !in r[0] && s == r[0] + [sep] + r[1]
  {
    var k := IndexOf(s, sep);
    if k < 0 then [s] else [s[..k], s[k + 1..]]
  }

  /** `s.TrimStart(chars)`: drops every leading character that is in `chars`. */
  function TrimStartChars(s: string, chars: set<char>): (r: string)
    ensures |r| <= |s|
  {
    if s != [] && s[0] in chars then TrimStartChars(s[1..], chars) else s
  }

  /** `TrimStart` drops exactly the leading characters that are in `chars`. */
  lemma {:induction false} TrimStartCharsShape(s: string, chars: set<char>)
    ensures var r := TrimStartChars(s, chars);
      r == s[|s| - |r|..] && (r == [] || r[0] !in chars) &&
      forall i :: 0 <= i < |s| - |r| ==> s[i] in chars
  {
    if s != [] && s[0] in chars {
      TrimStartCharsShape(s[1..], chars);
    }
  }

  function TrimStartWhite(s: string): (r: string)
    ensures |r| <= |s|
  {
    if s != [] && IsWhiteSpace(s[0]) then TrimStartWhite(s[1..]) else s
  }

  /** Trimming the front drops exactly the leading white space. */
  lemma {:induction false} TrimStartWhiteShape(s: string)
    ensures var r := TrimStartWhite(s);
      r == s[|s| - |r|..] && (r == [] || !IsWhiteSpace(r[0])) &&
      forall i :: 0 <= i < |s| - |r| ==> IsWhiteSpace(s[i])
  {
    if s != [] && IsWhiteSpace(s[0]) {
      TrimStartWhiteShape(s[1..]);
    }
  }

  /** Text that starts with a non-white character has nothing to trim at the front. */
  lemma TrimStartWhiteNone(s: string)
    requires s == [] || !IsWhiteSpace(s[0])
    ensures TrimStartWhite(s) == s
  {
  }

  function TrimEndWhite(s: string): (r: string)
    ensures |r| <= |s|
  {
    if s != [] && IsWhiteSpace(s[|s| - 1]) then TrimEndWhite(s[..|s| - 1]) else s
  }

  /** Trimming the back drops exactly the trailing white space. */
  lemma {:induction false} TrimEndWhiteShape(s: string)
    ensures var r := TrimEndWhite(s);
      r == s[..|r|] && (r == [] || !IsWhiteSpace(r[|r| - 1])) &&
      forall i :: |r| <= i < |s| ==> IsWhiteSpace(s[i])
  {
    if s != [] && IsWhiteSpace(s[|s| - 1]) {
      TrimEndWhiteShape(s[..|s| - 1]);
    }
  }

  /** Text that ends with a non-white character has nothing to trim at the back. */
  lemma TrimEndWhiteNone(s: string)
    requires s == [] || !IsWhiteSpace(s[|s| - 1])
    ensures TrimEndWhite(s) == s
  {
  }

  /** `string.Trim()`: drops leading and trailing white space. */
  function Trim(s: string): (r: string)
  {
    TrimEndWhite(TrimStartWhite(s))
  }

  /** After `Trim` neither end is white space. */
  lemma TrimEnds(s: string)
    ensures var r := Trim(s); r == [] || (!IsWhiteSpace(r[0]) && !IsWhiteSpace(r[|r| - 1]))
  {
    var t := TrimStartWhite(s);
    TrimStartWhiteShape(s);
    TrimEndWhiteShape(t);
  }

  /** Text with non-white ends is its own trimmed form. */
  lemma TrimNone(s: string)
    requires s != [] && !IsWhiteSpace(s[0]) && !IsWhiteSpace(s[|s| - 1])
    ensures Trim(s) == s
  {
    TrimStartWhiteNone(s);
    TrimEndWhiteNone(s);
  }

  // ---------------------------------------------------------------------------
  // Decimal numbers

  /** `n.ToString()` for a non-negative number. */
  function NatToString(n: nat): (s: string)
    ensures |s| >= 1
    ensures forall i :: 0 <= i < |s| ==> IsDigit(s[i])
  {
    if n < 10 then [DigitChar(n)] else NatToString(n / 10) + [DigitChar(n % 10)]
  }

  predicate AllDigits(s: string)
  {
    forall i :: 0 <= i < |s| ==> IsDigit(s[i])
  }

  function DigitsValue(s: string): nat
    requires AllDigits(s)
  {
    if s == [] then 0 else DigitsValue(s[..|s| - 1]) * 10 + DigitValue(s[|s| - 1])
  }

  /** Reading back the digits of a number gives the number. */
  lemma {:induction false} DigitsValueOfNatToString(n: nat)
    ensures DigitsValue(NatToString(n)) == n
  {
    var s := NatToString(n);
    if n >= 10 {
      DigitsValueOfNatToString(n / 10);
      assert s[..|s| - 1] == NatToString(n / 10);
    }
  }

  const Int32Min: int := -0x8000_0000
  const Int32Max: int := 0x7FFF_FFFF

  /** The white space `int.TryParse` skips around a number: the space and U+0009 to U+000D. */
  const NumberWhite: set<char> := {' ', '\t', '\n', '\U{B}', '\U{C}', '\r'}

  function TrimEndChars(s: string, chars: set<char>): (r: string)
    ensures |r| <= |s|
  {
    if s != [] && s[|s| - 1] in chars then TrimEndChars(s[..|s| - 1], chars) else s
  }

  /** `TrimEnd` drops exactly the trailing characters that are in `chars`: the result is a prefix that does not end with one of them. */
  lemma {:induction false} TrimEndCharsShape(s: string, chars: set<char>)
    ensures var r := TrimEndChars(s, chars);
      r == s[..|r|] && (r == [] || r[|r| - 1] !in chars) &&
      forall i :: |r| <= i < |s| ==> s[i] in chars
  {
    if s != [] && s[|s| - 1] in chars {
      TrimEndCharsShape(s[..|s| - 1], chars);
    }
  }

  /** Padding made of trimmed characters in front of text that starts with another one is removed exactly. */
  lemma {:induction false} TrimStartCharsPadded(w: string, x: string, chars: set<char>)
    requires forall i :: 0 <= i < |w| ==> w[i] in chars
    requires x == [] || x[0] !in chars
    ensures TrimStartChars(w + x, chars) == x
    decreases |w|
  {
    if w == [] {
      assert w + x == x;
    } else {
      assert (w + x)[1..] == w[1..] + x;
      TrimStartCharsPadded(w[1..], x, chars);
    }
  }

  /** Padding made of trimmed characters after text that ends with another one is removed exactly. */
  lemma {:induction false} TrimEndCharsPadded(x: string, w: string, chars: set<char>)
    requires forall i :: 0 <= i < |w| ==> w[i] in chars
    requires x == [] || x[|x| - 1] !in chars
    ensures TrimEndChars(x + w, chars) == x
    decreases |w|
  {
    if w == [] {
      assert x + w == x;
    } else {
      assert (x + w)[..|x + w| - 1] == x + w[..|w| - 1];
      TrimEndCharsPadded(x, w[..|w| - 1], chars);
    }
  }

  /**
   * `int.TryParse(s, out v)`: optional surrounding `NumberWhite`, an optional
   * sign and at least one decimal digit, within the range of a 32-bit int.
   */
  function ParseInt(s: NString): (r: Option<int>)
    ensures r.Some? ==> Int32Min <= r.value <= Int32Max
  {
    if s.None? then None
    else
      var t := TrimEndChars(TrimStartChars(s.value, NumberWhite), NumberWhite);
      var negative := |t| > 0 && t[0] == '-';
      var digits := if |t| > 0 && (t[0] == '-' || t[0] == '+') then t[1..] else t;
      if digits == [] || !AllDigits(digits) then None
      else
        var d: int := DigitsValue(digits);
        var v := if negative then -d else d;
        if Int32Min <= v <= Int32Max then Some(v) else None
  }

  /** The value of an optional sign followed by decimal digits. */
  function SignedValue(sign: string, digits: string): int
    requires AllDigits(digits)
  {
    if sign == "-" then -(DigitsValue(digits) as int) else DigitsValue(digits)
  }

  /** The parts of the text of an integer: number white space, an optional sign, decimal digits and number white space. */
  predicate NumberText(lead: string, sign: string, digits: string, trail: string)
  {
    (forall i :: 0 <= i < |lead| ==> lead[i] in NumberWhite) &&
    (forall i :: 0 <= i < |trail| ==> trail[i] in NumberWhite) &&
    (sign == "" || sign == "+" || sign == "-") &&
    digits != [] && AllDigits(digits)
  }

  predicate IsInt32(v: int)
  {
    Int32Min <= v <= Int32Max
  }

  /**
   * Every form `int.TryParse` accepts: the text of an integer gives the signed
   * value of its digits when that fits in 32 bits, and fails otherwise.
   */
  lemma ParseIntForm(lead: string, sign: string, digits: string, trail: string)
    requires NumberText(lead, sign, digits, trail)
    ensures ParseInt(Some(lead + sign + digits + trail)) ==
              if IsInt32(SignedValue(sign, digits)) then Some(SignedValue(sign, digits)) else None
  {
    var core := sign + digits;
    assert lead + sign + digits + trail == lead + (core + trail);
    assert core[|core| - 1] == digits[|digits| - 1];
    TrimStartCharsPadded(lead, core + trail, NumberWhite);
    TrimEndCharsPadded(core, trail, NumberWhite);
    ParseIntOfCore(lead + sign + digits + trail, sign, digits);
  }

  lemma ParseIntOfCore(s: string, sign: string, digits: string)
    requires sign == "" || sign == "+" || sign == "-"
    requires digits != [] && AllDigits(digits)
    requires TrimEndChars(TrimStartChars(s, NumberWhite), NumberWhite) == sign + digits
    ensures ParseInt(Some(s)) ==
              if IsInt32(SignedValue(sign, digits)) then Some(SignedValue(sign, digits)) else None
  {
    var t := sign + digits;
    if sign == "" {
      assert t == digits;
    } else {
      assert t[1..] == digits;
    }
  }

  /**
   * Text whose first character is neither number white space, a sign nor a
   * digit does not parse; in particular a no-break space (U+00A0) or a next
   * line (U+0085) in front of the digits is refused.
   */
  lemma ParseIntLeadingJunk(s: string)
    requires s != [] && s[0] !in NumberWhite && s[0] != '+' && s[0] != '-' && !IsDigit(s[0])
    ensures ParseInt(Some(s)) == None
  {
    assert TrimStartChars(s, NumberWhite) == s;
    TrimEndCharsShape(s, NumberWhite);
  }

  /**
   * The converse of `ParseIntForm`: text that parses is the text of an
   * integer, and the result is the signed value of its digits.
   */
  lemma ParseIntOnlyNumbers(s: string)
    ensures ParseInt(Some(s)).Some? ==>
              exists lead, sign, digits, trail :: NumberText(lead, sign, digits, trail) &&
                s == lead + sign + digits + trail && ParseInt(Some(s)).value == SignedValue(sign, digits)
  {
    if ParseInt(Some(s)).Some? {
      var lead, sign, digits, trail := NumberParts(s);
    }
  }

  /** The parts of a text that parses. */
  lemma NumberParts(s: string) returns (lead: string, sign: string, digits: string, trail: string)
    requires ParseInt(Some(s)).Some?
    ensures NumberText(lead, sign, digits, trail) && s == lead + sign + digits + trail
    ensures ParseInt(Some(s)).value == SignedValue(sign, digits)
  {
    lead, trail := TrimmedParts(s, NumberWhite);
    sign, digits := SignAndDigits(s);
    Regroup(s, lead, sign, digits, trail);
  }

  /** The four parts of a number, regrouped. */
  lemma Regroup(s: string, lead: string, sign: string, digits: string, trail: string)
    requires s == lead + (sign + digits) + trail
    ensures s == lead + sign + digits + trail
  {
  }

  /** The trimmed text of a number that parses is an optional sign followed by its digits. */
  lemma SignAndDigits(s: string) returns (sign: string, digits: string)
    requires ParseInt(Some(s)).Some?
    ensures TrimEndChars(TrimStartChars(s, NumberWhite), NumberWhite) == sign + digits
    ensures (sign == "" || sign == "+" || sign == "-") && digits != [] && AllDigits(digits)
    ensures ParseInt(Some(s)).value == SignedValue(sign, digits)
  {
    var t := TrimEndChars(TrimStartChars(s, NumberWhite), NumberWhite);
    sign := if t[0] == '-' || t[0] == '+' then t[..1] else "";
    digits := t[|sign|..];
    assert t == sign + digits;
  }

  /** Trimming both ends cuts the text into the dropped front, the kept middle and the dropped back. */
  lemma TrimmedParts(s: string, chars: set<char>) returns (lead: string, trail: string)
    ensures s == lead + TrimEndChars(TrimStartChars(s, chars), chars) + trail
    ensures forall i :: 0 <= i < |lead| ==> lead[i] in chars
    ensures forall i :: 0 <= i < |trail| ==> trail[i] in chars
  {
    var t1 := TrimStartChars(s, chars);
    lead := TrimmedFront(s, chars);
    trail := TrimmedBack(t1, chars);
  }

  /** Trimming the front drops a prefix made of the trimmed characters. */
  lemma TrimmedFront(s: string, chars: set<char>) returns (lead: string)
    ensures s == lead + TrimStartChars(s, chars)
    ensures forall i :: 0 <= i < |lead| ==> lead[i] in chars
  {
    TrimStartCharsShape(s, chars);
    lead := s[..|s| - |TrimStartChars(s, chars)|];
  }

  /** Trimming the back drops a suffix made of the trimmed characters. */
  lemma TrimmedBack(s: string, chars: set<char>) returns (trail: string)
    ensures s == TrimEndChars(s, chars) + trail
    ensures forall i :: 0 <= i < |trail| ==> trail[i] in chars
  {
    TrimEndCharsShape(s, chars);
    trail := s[|TrimEndChars(s, chars)|..];
  }

  /** A count rendered by `NatToString` parses back to itself. */
  lemma ParseIntOfNatToString(n: nat)
    requires n <= Int32Max
    ensures ParseInt(Some(NatToString(n))) == Some(n)
  {
    var s := NatToString(n);
    assert "" + "" + s + "" == s;
    DigitsValueOfNatToString(n);
    ParseIntForm("", "", s, "");
  }

  // ---------------------------------------------------------------------------
  // Hexadecimal

  predicate IsHexDigit(c: char)
  {
    IsDigit(c) || 'a' <= c <= 'f' || 'A' <= c <= 'F'
  }

  function HexValue(c: char): (v: nat)
    requires IsHexDigit(c)
    ensures v < 16
  {
    if IsDigit(c) then DigitValue(c)
    else if 'a' <= c <= 'f' then c as int - 'a' as int + 10
    else c as int - 'A' as int + 10
  }

  function HexChar(v: nat): (c: char)
    requires v < 16
    ensures IsHexDigit(c) && HexValue(c) == v
  {
    if v < 10 then DigitChar(v) else ('A' as int + v - 10) as char
  }

  /**
   * `Convert.ToByte(s, 16)` on a two-character string: two hex digits, or a
   * '+' sign and one hex digit; `None` where it throws (a '-' sign, white
   * space or any other character).
   */
  function HexByte(s: string): (r: Option<nat>)
    requires |s| == 2
    ensures r.Some? <==> IsHexDigit(s[1]) && (IsHexDigit(s[0]) || s[0] == '+')
    ensures r.Some? ==> r.value < 256
  {
    if !IsHexDigit(s[1]) then None
    else if IsHexDigit(s[0]) then Some(HexValue(s[0]) * 16 + HexValue(s[1]))
    else if s[0] == '+' then Some(HexValue(s[1]))
    else None
  }

  /** A hex digit and its lower-case form are both digits of the same value. */
  lemma HexDigitIgnoresCase(c: char)
    ensures IsHexDigit(LowerChar(c)) <==> IsHexDigit(c)
    ensures IsHexDigit(c) ==> HexValue(LowerChar(c)) == HexValue(c)
  {
  }

  /** `Convert.ToByte(s, 16)` does not depend on the case of the hex letters. */
  lemma HexByteIgnoresCase(s: string)
    requires |s| == 2
    ensures HexByte(Lower(s)) == HexByte(s)
  {
    var l := Lower(s);
    assert l[0] == LowerChar(s[0]) && l[1] == LowerChar(s[1]);
    HexDigitIgnoresCase(s[0]);
    HexDigitIgnoresCase(s[1]);
  }

  /** A '+' sign and one hex digit convert to that digit's value. */
  lemma SignedHexDigit(v: nat)
    requires v < 16
    ensures HexByte(['+', HexChar(v)]) == Some(v)
  {
  }

  /** A byte as two upper-case hexadecimal digits. */
  function Hex2(b: nat): (s: string)
    requires b < 256
    ensures |s| == 2
  {
    [HexChar(b / 16), HexChar(b % 16)]
  }

  lemma HexByteOfHex2(b: nat)
    requires b < 256
    ensures HexByte(Hex2(b)) == Some(b)
  {
  }
}
