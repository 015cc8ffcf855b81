/** Value helpers shared by the models and the routes: an optional value,
    the whitespace that JavaScript's String.prototype.trim removes, decimal
    digits, and the hexadecimal text of MongoDB object ids. */
module Common {

  datatype Option<T> = None | Some(value: T)

  // ---------------------------------------------------------------------
  // Whitespace and trimming (String.prototype.trim, used by the Mongoose
  // `trim: true` setters and the express-validator `.trim()` sanitizer)
  // ---------------------------------------------------------------------

  /** The WhiteSpace and LineTerminator code points of ECMAScript. */
  predicate IsWhitespace(c: char) {
    c == '\t' || c == '\n' || c == '\U{000B}' || c == '\U{000C}' || c == '\r' || c == ' '
    || c == '\U{00A0}' || c == '\U{1680}' || ('\U{2000}' <= c <= '\U{200A}')
    || c == '\U{2028}' || c == '\U{2029}' || c == '\U{202F}' || c == '\U{205F}'
    || c == '\U{3000}' || c == '\U{FEFF}'
  }

  predicate AllWhitespace(s: string) {
    forall i :: 0 <= i < |s| ==> IsWhitespace(s[i])
  }

  /** Neither the first nor the last character is whitespace. */
  predicate Trimmed(s: string) {
    s == [] || (!IsWhitespace(s[0]) && !IsWhitespace(s[|s| - 1]))
  }

  /** Drops leading whitespace: the result is the suffix of `s` that starts
      at its first non-whitespace character. */
  function TrimStart(s: string): (r: string)
    ensures |r| <= |s| && r == s[|s| - |r|..]
    ensures r == [] || !IsWhitespace(r[0])
  {
    if |s| > 0 && IsWhitespace(s[0]) then TrimStart(s[1..]) else s
  }

  /** String.prototype.trim: drops the whitespace on both ends. */
  function Trim(s: string): (r: string)
    ensures Trimmed(r) && |r| <= |s|
  {
    if |s| > 0 && IsWhitespace(s[0]) then Trim(s[1..])
    else if |s| > 0 && IsWhitespace(s[|s| - 1]) then Trim(s[..|s| - 1])
    else s
  }

  /** `r` is the slice of `s` starting at `i`, and everything of `s` around
      it is whitespace. */
  predicate MiddleOf(s: string, r: string, i: int) {
    && 0 <= i <= |s| - |r| && r == s[i..i + |r|]
    && (forall j :: 0 <= j < i ==> IsWhitespace(s[j]))
    && (forall j :: i + |r| <= j < |s| ==> IsWhitespace(s[j]))
  }

  /** What trim keeps is the contiguous middle of `s`, and what it drops on
      either side is all whitespace. */
  lemma {:induction false} TrimIsMiddle(s: string)
    ensures exists i :: MiddleOf(s, Trim(s), i)
  {
    var r := Trim(s);
    if |s| > 0 && IsWhitespace(s[0]) {
      TrimIsMiddle(s[1..]);
      var i :| MiddleOf(s[1..], r, i);
      MiddleAfterLeadingSpace(s, r, i);
    } else if |s| > 0 && IsWhitespace(s[|s| - 1]) {
      TrimIsMiddle(s[..|s| - 1]);
      var i :| MiddleOf(s[..|s| - 1], r, i);
      MiddleBeforeTrailingSpace(s, r, i);
    } else {
      assert MiddleOf(s, r, 0);
    }
  }

  lemma MiddleAfterLeadingSpace(s: string, r: string, i: int)
    requires |s| > 0 && IsWhitespace(s[0]) && MiddleOf(s[1..], r, i)
    ensures MiddleOf(s, r, i + 1)
  {
    var t := s[1..];
    assert r == s[i + 1..i + 1 + |r|];
    forall j | 0 <= j < i + 1 ensures IsWhitespace(s[j]) {
      if j > 0 { assert s[j] == t[j - 1]; }
    }
    forall j | i + 1 + |r| <= j < |s| ensures IsWhitespace(s[j]) {
      assert s[j] == t[j - 1];
    }
  }

  lemma MiddleBeforeTrailingSpace(s: string, r: string, i: int)
    requires |s| > 0 && IsWhitespace(s[|s| - 1]) && MiddleOf(s[..|s| - 1], r, i)
    ensures MiddleOf(s, r, i)
  {
    var t := s[..|s| - 1];
    assert r == s[i..i + |r|];
    forall j | 0 <= j < i ensures IsWhitespace(s[j]) {
      assert s[j] == t[j];
    }
    forall j | i + |r| <= j < |s| ensures IsWhitespace(s[j]) {
      if j < |t| { assert s[j] == t[j]; }
    }
  }

  /** Trimming a string that has no whitespace at its ends changes nothing. */
  lemma TrimOfTrimmed(s: string)
    requires Trimmed(s)
    ensures Trim(s) == s
  {
  }

  /** Trimming twice is trimming once. */
  lemma TrimIdempotent(s: string)
    ensures Trim(Trim(s)) == Trim(s)
  {
    TrimOfTrimmed(Trim(s));
  }

  /** Trims an optional string when it is present. */
  function TrimOption(s: Option<string>): (r: Option<string>)
    ensures r.Some? <==> s.Some?
    ensures r.Some? ==> r.value == Trim(s.value) && Trimmed(r.value)
  {
    if s.Some? then Some(Trim(s.value)) else None
  }

  // ---------------------------------------------------------------------
  // Lengths in UTF-16 code units (String.prototype.length, Mongoose's
  // `maxlength`) against lengths in code points (express-validator's
  // `isLength`, which counts a surrogate pair once)
  // ---------------------------------------------------------------------

  /** A code point outside the Basic Multilingual Plane, which UTF-16
      writes as a surrogate pair. */
  predicate IsAstral(c: char) {
    c as int > 0xFFFF
  }

  /** The number of UTF-16 code units of a string: two for an astral code
      point, one for any other. */
  function Utf16Length(s: string): (n: nat)
    ensures |s| <= n <= 2 * |s|
    ensures n == |s| <==> forall i :: 0 <= i < |s| ==> !IsAstral(s[i])
  {
    if s == [] then 0
    else
      var n := Utf16Length(s[..|s| - 1]) + (if IsAstral(s[|s| - 1]) then 2 else 1);
      assert forall i :: 0 <= i < |s| - 1 ==> s[..|s| - 1][i] == s[i];
      n
  }

  /** Sixty copies of U+1F68C (a bus): 60 code points, 120 UTF-16 code
      units, and nothing for trim to remove. */
  lemma SixtyAstralChars()
    ensures var s := seq(60, _ => '\U{1F68C}');
            Trim(s) == s && |s| == 60 && Utf16Length(s) == 120
  {
    var s := seq(60, _ => '\U{1F68C}');
    AstralUtf16Length(s);
    TrimOfTrimmed(s);
  }

  /** A string of astral code points is twice as long in UTF-16. */
  lemma {:induction false} AstralUtf16Length(s: string)
    requires forall i :: 0 <= i < |s| ==> IsAstral(s[i])
    ensures Utf16Length(s) == 2 * |s|
  {
    if s != [] {
      AstralUtf16Length(s[..|s| - 1]);
    }
  }

  // ---------------------------------------------------------------------
  // Decimal digits
  // ---------------------------------------------------------------------

  predicate IsDigit(c: char) {
    '0' <= c <= '9'
  }

  predicate AllDigits(s: string) {
    forall i :: 0 <= i < |s| ==> IsDigit(s[i])
  }

  function DigitOf(c: char): (d: nat)
    requires IsDigit(c)
    ensures d <= 9
  {
    c as int - '0' as int
  }

  /** The number a string of decimal digits denotes, read left to right. */
  function DecimalValue(s: string): (n: nat)
    requires AllDigits(s)
    ensures s != [] && '1' <= s[0] <= '9' ==> n >= 1
  {
    if s == [] then 0
    else DecimalValue(s[..|s| - 1]) * 10 + DigitOf(s[|s| - 1])
  }

  /** The value of a one- or two-digit string. */
  lemma ShortDecimalValue(s: string)
    requires AllDigits(s) && 1 <= |s| <= 2
    ensures DecimalValue(s) == if |s| == 1 then DigitOf(s[0]) else 10 * DigitOf(s[0]) + DigitOf(s[1])
  {
    if |s| == 1 {
      assert s[..0] == [];
    } else {
      assert s[..1] == [s[0]] && s[..1][..0] == [];
    }
  }

  // ---------------------------------------------------------------------
  // Hexadecimal text of MongoDB ObjectIds
  // ---------------------------------------------------------------------

  predicate IsHexDigit(c: char) {
    IsDigit(c) || ('a' <= c <= 'f') || ('A' <= c <= 'F')
  }

  predicate AllHex(s: string) {
    forall i :: 0 <= i < |s| ==> IsHexDigit(s[i])
  }

  predicate IsLowerHexDigit(c: char) {
    IsDigit(c) || ('a' <= c <= 'f')
  }

  /** The 24-hex-digit text of a patron's ObjectId. */
  type PatronId = string

  /** What ObjectId.toString() produces: 24 lower-case hex digits. */
  predicate IsObjectIdText(s: string) {
    |s| == 24 && forall i :: 0 <= i < |s| ==> IsLowerHexDigit(s[i])
  }

  /** A string the ObjectId cast accepts: 24 hex digits of either case. */
  predicate IsCastableId(s: string) {
    |s| == 24 && AllHex(s)
  }

  /** express-validator's isMongoId: isHexadecimal (an optional 0x or 0h
      prefix, any case, then hex digits) and a length of exactly 24. */
  predicate IsMongoId(s: string)
    ensures IsCastableId(s) ==> IsMongoId(s)
    ensures IsMongoId(s) ==> |s| == 24 && AllHex(s[2..])
  {
    |s| == 24
    && (AllHex(s)
        || (s[0] == '0' && s[1] in {'x', 'X', 'h', 'H'} && AllHex(s[2..])))
  }

  function LowerHexChar(c: char): (r: char)
    requires IsHexDigit(c)
    ensures IsLowerHexDigit(r)
    ensures IsLowerHexDigit(c) ==> r == c
    ensures 'A' <= c <= 'F' ==> r as int == c as int + 32
  {
    if 'A' <= c <= 'F' then (c as int - 'A' as int + 'a' as int) as char else c
  }

  /** The ObjectId a castable id string denotes, as ObjectId.toString()
      prints it. */
  function CanonicalId(s: string): (r: string)
    requires IsCastableId(s)
    ensures IsObjectIdText(r) && |r| == |s|
    ensures forall i :: 0 <= i < |s| ==> r[i] == s[i] || ('A' <= s[i] <= 'F' && r[i] as int == s[i] as int + 32)
    ensures IsObjectIdText(s) ==> r == s
  {
    seq(|s|, i requires 0 <= i < |s| => LowerHexChar(s[i]))
  }

  /** The position of the first element whose key is `id`: what a lookup
      by id finds. */
  function IndexOfKey<T>(s: seq<T>, key: T -> string, id: string): (r: Option<nat>)
    ensures r.Some? ==> r.value < |s| && key(s[r.value]) == id
    ensures r.None? ==> forall i :: 0 <= i < |s| ==> key(s[i]) != id
  {
    if s == [] then None
    else if key(s[0]) == id then Some(0)
    else match IndexOfKey(s[1..], key, id)
      case None => None
      case Some(k) => Some(k + 1)
  }

  // ---------------------------------------------------------------------
  // parseInt(s) with no radix argument
  // ---------------------------------------------------------------------

  /** The longest prefix of `s` made of characters satisfying `digit`. */
  function DigitRun(s: string, hex: bool): (r: string)
    ensures |r| <= |s| && r == s[..|r|]
    ensures forall i :: 0 <= i < |r| ==> (if hex then IsHexDigit(r[i]) else IsDigit(r[i]))
    ensures |r| < |s| ==> !(if hex then IsHexDigit(s[|r|]) else IsDigit(s[|r|]))
  {
    if s != [] && (if hex then IsHexDigit(s[0]) else IsDigit(s[0])) then [s[0]] + DigitRun(s[1..], hex)
    else []
  }

  function HexDigitOf(c: char): (d: nat)
    requires IsHexDigit(c)
    ensures d <= 15
    ensures IsDigit(c) ==> d == DigitOf(c)
  {
    if IsDigit(c) then DigitOf(c)
    else if 'a' <= c <= 'f' then c as int - 'a' as int + 10
    else c as int - 'A' as int + 10
  }

  /** The number a string of hexadecimal digits denotes. */
  function HexValue(s: string): nat
    requires AllHex(s)
  {
    if s == [] then 0
    else HexValue(s[..|s| - 1]) * 16 + HexDigitOf(s[|s| - 1])
  }

  /** The sign parseInt reads: a leading `-` makes the result negative. */
  predicate NegativeSign(t: string) {
    t != [] && t[0] == '-'
  }

  /** What follows an optional leading sign. */
  function Unsigned(t: string): (u: string)
    ensures u == t || (t != [] && u == t[1..])
  {
    if t != [] && (t[0] == '-' || t[0] == '+') then t[1..] else t
  }

  /** The `0x`/`0X` prefix that switches parseInt to base 16. */
  predicate HexPrefix(u: string) {
    |u| >= 2 && u[0] == '0' && (u[1] == 'x' || u[1] == 'X')
  }

  /** The magnitude parseInt reads from an unsigned string, or None when
      no digit follows. */
  function Magnitude(u: string): (r: Option<nat>)
  {
    if HexPrefix(u) then
      var run := DigitRun(u[2..], true);
      if run == [] then None else Some(HexValue(run))
    else
      var run := DigitRun(u, false);
      if run == [] then None else Some(DecimalValue(run))
  }

  /** What parseInt makes of a string with no leading whitespace: the
      magnitude, negated after a `-`; None when no digit follows the sign. */
  function Signed(t: string): Option<int> {
    match Magnitude(Unsigned(t))
    case None => None
    case Some(n) => var m: int := n; Some(if NegativeSign(t) then -m else m)
  }

  /** parseInt(s): skip leading whitespace, take an optional sign, read
      base 16 after a `0x`/`0X` prefix and base 10 otherwise, and stop at
      the first character that is not a digit of that base; None stands for
      NaN, the result when no digit is read. */
  function ParseInt(s: string): (r: Option<int>)
    ensures AllWhitespace(s) ==> r.None?
  {
    Signed(TrimStart(s))
  }

  /** The magnitude of digits followed by a non-digit is their decimal
      value. */
  lemma MagnitudeOfDigits(s: string, rest: string)
    requires s != [] && AllDigits(s)
    requires rest == [] || !IsDigit(rest[0])
    requires s == "0" ==> rest == [] || (rest[0] != 'x' && rest[0] != 'X')
    ensures Magnitude(s + rest) == Some(DecimalValue(s))
  {
    var t := s + rest;
    assert !HexPrefix(t) by {
      if |t| >= 2 && |s| == 1 {
        assert t[1] == rest[0];
      }
      if |s| >= 2 {
        assert t[1] == s[1];
      }
    }
    DigitRunPrefix(s, rest);
  }

  /** parseInt reads a plain string of decimal digits as its decimal value,
      and ignores anything after the digits. */
  lemma ParseIntOfDigits(s: string, rest: string)
    requires s != [] && AllDigits(s)
    requires rest == [] || !IsDigit(rest[0])
    requires s == "0" ==> rest == [] || (rest[0] != 'x' && rest[0] != 'X')
    ensures ParseInt(s + rest) == Some(DecimalValue(s))
  {
    var t := s + rest;
    assert t[0] == s[0];
    MagnitudeOfDigits(s, rest);
    NoSkippedPrefix(t);
    SignedOfUnsigned(t, DecimalValue(s));
  }

  /** A string that starts with neither whitespace nor a sign is read as
      it stands. */
  lemma SignedOfUnsigned(t: string, v: nat)
    requires t != [] && IsDigit(t[0]) && Magnitude(t) == Some(v)
    ensures Signed(t) == Some(v)
  {
    assert Unsigned(t) == t && !NegativeSign(t);
  }

  /** trimStart leaves a string that does not start with whitespace alone. */
  lemma NoSkippedPrefix(t: string)
    requires t != [] && (IsDigit(t[0]) || t[0] == '-')
    ensures TrimStart(t) == t
  {
  }

  lemma {:induction false} DigitRunPrefix(s: string, rest: string)
    requires AllDigits(s) && (rest == [] || !IsDigit(rest[0]))
    ensures DigitRun(s + rest, false) == s
  {
    if s != [] {
      assert (s + rest)[1..] == s[1..] + rest;
      DigitRunPrefix(s[1..], rest);
    } else {
      assert s + rest == rest;
    }
  }

  /** A string that starts with a character other than whitespace, a sign
      or a digit is NaN. */
  lemma ParseIntNoDigit(s: string)
    requires s != [] && !IsWhitespace(s[0]) && !IsDigit(s[0]) && s[0] != '-' && s[0] != '+'
    ensures ParseInt(s) == None
  {
    assert TrimStart(s) == s && Unsigned(s) == s;
  }

  /** A minus sign before the digits negates their value. */
  lemma ParseIntOfNegated(s: string, rest: string)
    requires s != [] && AllDigits(s)
    requires rest == [] || !IsDigit(rest[0])
    requires s == "0" ==> rest == [] || (rest[0] != 'x' && rest[0] != 'X')
    ensures ParseInt("-" + s + rest) == Some(-(DecimalValue(s) as int))
  {
    MagnitudeOfDigits(s, rest);
    AfterFirst("-", s, rest);
    ParseIntAfterSign("-" + s + rest, s + rest, DecimalValue(s));
  }

  /** A one-character prefix is the first character, and what follows it
      is the rest. */
  lemma AfterFirst(c: string, s: string, rest: string)
    requires |c| == 1
    ensures (c + s + rest)[0] == c[0] && (c + s + rest)[1..] == s + rest
  {
  }

  /** parseInt of a sign followed by a string with a magnitude. */
  lemma ParseIntAfterSign(t: string, u: string, v: nat)
    requires t != [] && (t[0] == '-' || t[0] == '+') && t[1..] == u
    requires Magnitude(u) == Some(v)
    ensures ParseInt(t) == Some(if t[0] == '-' then -(v as int) else v)
  {
    ParseIntUnpadded(t);
    SignedAfterSign(t, u, v);
  }

  /** parseInt reads a string that starts with no whitespace as it stands. */
  lemma ParseIntUnpadded(t: string)
    requires t != [] && !IsWhitespace(t[0])
    ensures ParseInt(t) == Signed(t)
  {
    assert TrimStart(t) == t;
  }

  lemma SignedAfterSign(t: string, u: string, v: nat)
    requires t != [] && (t[0] == '-' || t[0] == '+') && t[1..] == u
    requires Magnitude(u) == Some(v)
    ensures Signed(t) == Some(if t[0] == '-' then -(v as int) else v)
  {
    assert Unsigned(t) == u;
  }

  /** A plus sign before the digits is read and dropped. */
  lemma ParseIntOfPlus(s: string, rest: string)
    requires s != [] && AllDigits(s)
    requires rest == [] || !IsDigit(rest[0])
    requires s == "0" ==> rest == [] || (rest[0] != 'x' && rest[0] != 'X')
    ensures ParseInt("+" + s + rest) == Some(DecimalValue(s))
  {
    MagnitudeOfDigits(s, rest);
    AfterFirst("+", s, rest);
    ParseIntAfterSign("+" + s + rest, s + rest, DecimalValue(s));
  }

  /** parseInt skips the whitespace before a number: " 5" reads as "5". */
  lemma ParseIntSkipsWhitespace(w: string, t: string)
    requires AllWhitespace(w)
    ensures ParseInt(w + t) == ParseInt(t)
  {
    TrimStartSkips(w, t);
  }

  lemma {:induction false} TrimStartSkips(w: string, t: string)
    requires AllWhitespace(w)
    ensures TrimStart(w + t) == TrimStart(t)
  {
    if w != [] {
      assert (w + t)[0] == w[0];
      assert (w + t)[1..] == w[1..] + t;
      TrimStartSkips(w[1..], t);
    } else {
      assert w + t == t;
    }
  }

  /** After `0x` or `0X` parseInt reads hexadecimal digits, up to the first
      character that is not one. */
  lemma ParseIntOfHex(x: char, h: string, rest: string)
    requires x == 'x' || x == 'X'
    requires h != [] && AllHex(h)
    requires rest == [] || !IsHexDigit(rest[0])
    ensures ParseInt(['0', x] + h + rest) == Some(HexValue(h))
  {
    HexRunPrefix(h, rest);
    ParseIntAfterHexPrefix(['0', x] + h + rest, h + rest);
  }

  /** parseInt of `0x` or `0X` followed by hexadecimal digits. */
  lemma ParseIntAfterHexPrefix(t: string, w: string)
    requires HexPrefix(t) && t[2..] == w && DigitRun(w, true) != []
    ensures ParseInt(t) == Some(HexValue(DigitRun(w, true)))
  {
    assert TrimStart(t) == t;
    assert Unsigned(t) == t && !NegativeSign(t);
  }

  lemma {:induction false} HexRunPrefix(h: string, rest: string)
    requires AllHex(h) && (rest == [] || !IsHexDigit(rest[0]))
    ensures DigitRun(h + rest, true) == h
  {
    if h != [] {
      assert (h + rest)[1..] == h[1..] + rest;
      HexRunPrefix(h[1..], rest);
    } else {
      assert h + rest == rest;
    }
  }

  /** "+5" is read as 5. */
  lemma PlusFive()
    ensures ParseInt("+5") == Some(5)
  {
    FiveDigit();
    ParseIntOfPlus("5", []);
    assert "+" + "5" + [] == "+5";
  }

  /** "5" is read as 5. */
  lemma PlainFive()
    ensures ParseInt("5") == Some(5)
  {
    FiveDigit();
    ParseIntOfDigits("5", []);
    assert "5" + [] == "5";
  }

  /** " 5" is read as 5. */
  lemma SpaceFive()
    ensures ParseInt(" 5") == Some(5)
  {
    var t := " 5";
    assert t == " " + "5";
    SpaceBefore("5");
    PlainFive();
  }

  lemma SpaceBefore(t: string)
    ensures ParseInt(" " + t) == ParseInt(t)
  {
    assert IsWhitespace(" "[0]);
    ParseIntSkipsWhitespace(" ", t);
  }

  /** "0x5" is read as 5. */
  lemma HexFive()
    ensures ParseInt("0x5") == Some(5)
  {
    assert HexValue("5") == 5 by {
      assert "5"[..0] == [];
    }
    ParseIntOfHex('x', "5", []);
    assert ['0', 'x'] + "5" + [] == "0x5";
  }

  lemma FiveDigit()
    ensures DecimalValue("5") == 5
  {
    assert "5"[..0] == [];
  }

}
