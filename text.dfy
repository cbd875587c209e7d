/** String operations the client and the server perform on strings: decimal
    rendering and parsing, splitting on a separator, trimming whitespace,
    replacing the first occurrence of a character and keeping a prefix. */
module Text {
  import opened Values

  predicate IsDigit(c: char)
  {
    '0' <= c <= '9'
  }

  predicate AllDigits(s: string)
  {
    forall i :: 0 <= i < |s| ==> IsDigit(s[i])
  }

  function DigitValue(c: char): (d: nat)
    requires IsDigit(c)
    ensures d < 10
  {
    c as int - '0' as int
  }

  function DigitChar(d: nat): (c: char)
    requires d < 10
    ensures IsDigit(c) && DigitValue(c) == d
  {
    ('0' as int + d) as char
  }

  /** `String(n)` for a non-negative integer: its decimal digits, no leading zero. */
  function DecimalString(n: nat): (s: string)
    ensures |s| >= 1 && AllDigits(s)
    ensures (|s| == 1) <==> n < 10
    ensures n >= 10 ==> s[0] != '0'
    decreases n
  {
    if n < 10 then [DigitChar(n)] else DecimalString(n / 10) + [DigitChar(n % 10)]
  }

  /** JavaScript's `Number(s)` on strings of ASCII digits (the empty string is 0);
      any other string gives NaN, here `None`. */
  function NumberOf(s: string): (r: Option<nat>)
    ensures r.Some? <==> AllDigits(s)
  {
    if s == [] then Some(0)
    else
      var init := s[..|s| - 1];
      assert forall i :: 0 <= i < |init| ==> init[i] == s[i];
      match NumberOf(init)
      case None => None
      case Some(p) => if IsDigit(s[|s| - 1]) then Some(p * 10 + DigitValue(s[|s| - 1])) else None
  }

  /** Reading back what `DecimalString` wrote gives the number again. */
  lemma {:induction false} NumberOfDecimalString(n: nat)
    ensures NumberOf(DecimalString(n)) == Some(n)
    decreases n
  {
    var s := DecimalString(n);
    if n >= 10 {
      NumberOfDecimalString(n / 10);
      assert s[..|s| - 1] == DecimalString(n / 10);
    } else {
      assert s[..|s| - 1] == [];
    }
  }

  /** A leading zero does not change the number. */
  lemma {:induction false} NumberOfLeadingZero(s: string)
    ensures NumberOf("0" + s) == NumberOf(s)
    decreases |s|
  {
    if s == [] {
      assert ("0" + s)[..0] == [];
    } else {
      var t := "0" + s;
      assert t[..|t| - 1] == "0" + s[..|s| - 1];
      assert t[|t| - 1] == s[|s| - 1];
      NumberOfLeadingZero(s[..|s| - 1]);
    }
  }

  /** The characters Python's `str.isspace` accepts, which `int(s)` strips
      from both ends of its argument. */
  predicate IsPySpace(c: char)
  {
    || c == ' ' || '\t' <= c <= '\r' || '\U{1C}' <= c <= '\U{1F}' || c == '\U{85}' || c == '\U{A0}'
    || c == '\U{1680}' || '\U{2000}' <= c <= '\U{200A}' || c == '\U{2028}' || c == '\U{2029}'
    || c == '\U{202F}' || c == '\U{205F}' || c == '\U{3000}'
  }

  predicate AllPySpace(s: string)
  {
    forall i :: 0 <= i < |s| ==> IsPySpace(s[i])
  }

  /** `s.strip()`: white space removed from both ends. */
  function PyStrip(s: string): (r: string)
    ensures |r| <= |s|
    ensures r != [] ==> !IsPySpace(r[0]) && !IsPySpace(r[|r| - 1])
    decreases |s|
  {
    if s == [] then s
    else if IsPySpace(s[0]) then PyStrip(s[1..])
    else if IsPySpace(s[|s| - 1]) then PyStrip(s[..|s| - 1])
    else s
  }

  /** Stripping white space around a text that neither starts nor ends with
      white space gives that text back. */
  lemma {:induction false} PyStripPadded(before: string, t: string, after: string)
    requires AllPySpace(before) && AllPySpace(after)
    requires t != [] && !IsPySpace(t[0]) && !IsPySpace(t[|t| - 1])
    ensures PyStrip(before + t + after) == t
    decreases |before| + |after|
  {
    var s := before + t + after;
    if before != [] {
      assert s[0] == before[0] && s[1..] == before[1..] + t + after;
      PyStripPadded(before[1..], t, after);
    } else if after != [] {
      assert s[0] == t[0] && s[|s| - 1] == after[|after| - 1];
      assert s[..|s| - 1] == before + t + after[..|after| - 1];
      PyStripPadded(before, t, after[..|after| - 1]);
    } else {
      assert s == t;
    }
  }

  /** The digit part of a decimal integer literal: ASCII digits, with single
      underscores allowed between two digits (`1_000`). The result is the
      digits with the underscores left out, `None` for any other text. */
  function GroupDigits(s: string): (r: Option<string>)
    ensures r.Some? ==> AllDigits(r.value) && r.value != []
    decreases |s|
  {
    if s == [] || !IsDigit(s[0]) then None
    else if |s| == 1 then Some(s)
    else
      var rest := if s[1] == '_' then s[2..] else s[1..];
      match GroupDigits(rest)
      case None => None
      case Some(d) =>
        assert forall i :: 1 <= i < |[s[0]] + d| ==> ([s[0]] + d)[i] == d[i - 1];
        Some([s[0]] + d)
  }

  /** A plain digit string is its own digit part. */
  lemma {:induction false} GroupDigitsOfDigits(s: string)
    requires AllDigits(s) && s != []
    ensures GroupDigits(s) == Some(s)
  {
    if |s| > 1 {
      GroupDigitsOfDigits(s[1..]);
      assert s == [s[0]] + s[1..];
    }
  }

  lemma DigitNotSpace(c: char)
    requires IsDigit(c)
    ensures !IsPySpace(c) && c != '+' && c != '-' && c != '_'
  {
  }

  /** A plain digit string has nothing to strip and no sign. */
  lemma DigitsAreLiteral(s: string)
    ensures AllDigits(s) && s != "" ==> PyStrip(s) == s && Unsigned(s) == s && GroupDigits(s) == Some(s)
  {
    if AllDigits(s) && s != "" {
      DigitNotSpace(s[0]);
      DigitNotSpace(s[|s| - 1]);
      GroupDigitsOfDigits(s);
    }
  }

  /** The text after an optional leading sign. */
  function Unsigned(t: string): string
  {
    if t != [] && (t[0] == '+' || t[0] == '-') then t[1..] else t
  }

  /** Python's `int(s)` in base 10: white space stripped, an optional sign,
      then ASCII digit groups; `None` where Python raises `ValueError`. */
  function ParseInt(s: string): (r: Option<int>)
    ensures r.Some? ==> s != "" && s != "+" && s != "-"
    ensures r.Some? <==> GroupDigits(Unsigned(PyStrip(s))).Some?
    ensures AllDigits(s) && s != "" ==> r == Some(NumberOf(s).value)
  {
    var t := PyStrip(s);
    DigitsAreLiteral(s);
    match GroupDigits(Unsigned(t))
    case None => None
    case Some(d) =>
      var n: int := NumberOf(d).value;
      Some(if t[0] == '-' then -n else n)
  }

  /** `str(n)` read back by `int(...)` gives `n` (non-negative ids). */
  lemma ParseIntDecimalString(n: nat)
    ensures ParseInt(DecimalString(n)) == Some(n)
  {
    NumberOfDecimalString(n);
  }

  /** White space around a number and a sign before it are read as Python
      does: `int(" -42\n") == -42`. */
  lemma ParseIntPadded(before: string, n: nat, after: string, negative: bool)
    requires AllPySpace(before) && AllPySpace(after)
    ensures ParseInt(before + (if negative then "-" else "") + DecimalString(n) + after)
            == Some(if negative then -(n as int) else n as int)
  {
    var digits := DecimalString(n);
    var t := (if negative then "-" else "") + digits;
    var s := before + t + after;
    assert before + (if negative then "-" else "") + digits + after == s;
    DigitNotSpace(digits[0]);
    DigitNotSpace(digits[|digits| - 1]);
    assert t[|t| - 1] == digits[|digits| - 1];
    PyStripPadded(before, t, after);
    assert Unsigned(t) == digits;
    GroupDigitsOfDigits(digits);
    NumberOfDecimalString(n);
    assert ParseInt(s) == Some(if negative then -(n as int) else n as int);
  }

  /** A single underscore between digits is ignored: `int("1_000") == 1000`. */
  lemma ParseIntUnderscore(x: string, y: string)
    requires AllDigits(x) && AllDigits(y) && x != "" && y != ""
    ensures ParseInt(x + "_" + y) == ParseInt(x + y)
    ensures ParseInt(x + y).Some?
  {
    var s := x + "_" + y;
    DigitNotSpace(x[0]);
    DigitNotSpace(y[|y| - 1]);
    assert s[0] == x[0] && s[|s| - 1] == y[|y| - 1];
    assert PyStrip(s) == s;
    assert Unsigned(s) == s;
    assert GroupDigits(s) == Some(x + y) by {
      GroupDigitsJoin(x, y);
    }
    var xy := x + y;
    assert AllDigits(xy) && xy != [];
  }

  /** The digit part of `x + "_" + y` is `x + y`. */
  lemma {:induction false} GroupDigitsJoin(x: string, y: string)
    requires AllDigits(x) && AllDigits(y) && x != "" && y != ""
    ensures GroupDigits(x + "_" + y) == Some(x + y)
  {
    var s := x + "_" + y;
    GroupDigitsOfDigits(y);
    if |x| == 1 {
      assert s[0] == x[0] && s[1] == '_' && s[2..] == y;
      assert x + y == [x[0]] + y;
    } else {
      GroupDigitsJoin(x[1..], y);
      assert s[1] == x[1] && s[1..] == x[1..] + "_" + y;
      assert x + y == [x[0]] + (x[1..] + y);
    }
  }

  /** What `int(...)` refuses: an empty or blank text, a lone sign, a doubled,
      leading or trailing underscore. */
  lemma ParseIntRejects()
    ensures ParseInt("").None? && ParseInt(" ").None? && ParseInt("-").None?
    ensures ParseInt("1__0").None? && ParseInt("_1").None? && ParseInt("1_").None?
  {
    assert PyStrip(" ") == PyStrip("");
    assert PyStrip("1__0") == "1__0";
    assert PyStrip("_1") == "_1";
    assert PyStrip("1_") == "1_";
  }

  /** `s.split(sep)` in JavaScript and Python: the pieces between separators. */
  function SplitOn(s: string, sep: char): (parts: seq<string>)
    ensures |parts| >= 1
    ensures (sep !in s) ==> parts == [s]
  {
    if s == [] then [[]]
    else
      var rest := SplitOn(s[1..], sep);
      assert [s[0]] + s[1..] == s;
      if s[0] == sep then [[]] + rest else [[s[0]] + rest[0]] + rest[1..]
  }

  /** Splitting `a + sep + b` where `a` has no separator: `a` comes off first. */
  lemma {:induction false} SplitOnJoin(a: string, sep: char, b: string)
    requires sep !in a
    ensures SplitOn(a + [sep] + b, sep) == [a] + SplitOn(b, sep)
    decreases |a|
  {
    if a == [] {
      assert a + [sep] + b == [sep] + b;
      assert ([sep] + b)[1..] == b;
    } else {
      var s := a + [sep] + b;
      assert s[0] == a[0];
      assert s[1..] == a[1..] + [sep] + b;
      SplitOnJoin(a[1..], sep, b);
      assert [a[0]] + a[1..] == a;
    }
  }

  /** The characters `String.prototype.trim` removes: ECMAScript white space and
      line terminators. */
  const Spaces: set<char> := {
    ' ', '\t', '\n', '\r', '\U{000B}', '\U{000C}', '\U{00A0}', '\U{1680}',
    '\U{2000}', '\U{2001}', '\U{2002}', '\U{2003}', '\U{2004}', '\U{2005}',
    '\U{2006}', '\U{2007}', '\U{2008}', '\U{2009}', '\U{200A}',
    '\U{2028}', '\U{2029}', '\U{202F}', '\U{205F}', '\U{3000}', '\U{FEFF}'
  }

  predicate IsSpace(c: char)
  {
    c in Spaces
  }

  predicate AllSpace(s: string)
  {
    forall i :: 0 <= i < |s| ==> IsSpace(s[i])
  }

  /** `s` without the white space at its start. */
  function TrimStart(s: string): string
  {
    if s != [] && IsSpace(s[0]) then TrimStart(s[1..]) else s
  }

  /** `s` without the white space at its end. */
  function TrimEnd(s: string): string
  {
    if s != [] && IsSpace(s[|s| - 1]) then TrimEnd(s[..|s| - 1]) else s
  }

  /** `s.trim()`: white space removed at both ends. */
  function Trim(s: string): string
  {
    TrimEnd(TrimStart(s))
  }

  /** What `TrimStart` removes is a run of white space, and what it keeps does
      not start with white space. */
  lemma {:induction false} TrimStartSpec(s: string)
    ensures var r := TrimStart(s);
            |r| <= |s| && r == s[|s| - |r|..] && AllSpace(s[..|s| - |r|])
            && (r != [] ==> !IsSpace(r[0]))
    decreases |s|
  {
    if s != [] && IsSpace(s[0]) {
      TrimStartSpec(s[1..]);
      var r := TrimStart(s[1..]);
      var tail := s[1..];
      assert tail[|tail| - |r|..] == s[|s| - |r|..];
      var cut := s[..|s| - |r|];
      assert AllSpace(cut) by {
        forall k | 0 <= k < |cut| ensures IsSpace(cut[k]) {
          if k > 0 {
            assert cut[k] == tail[..|tail| - |r|][k - 1];
          }
        }
      }
    } else {
      assert s[..0] == [];
    }
  }

  /** What `TrimEnd` removes is a run of white space, and what it keeps does not
      end with white space. */
  lemma {:induction false} TrimEndSpec(s: string)
    ensures var r := TrimEnd(s);
            |r| <= |s| && r == s[..|r|] && AllSpace(s[|r|..])
            && (r != [] ==> !IsSpace(r[|r| - 1]))
    decreases |s|
  {
    if s != [] && IsSpace(s[|s| - 1]) {
      TrimEndSpec(s[..|s| - 1]);
      var r := TrimEnd(s[..|s| - 1]);
      var init := s[..|s| - 1];
      assert init[..|r|] == s[..|r|];
      var cut := s[|r|..];
      assert AllSpace(cut) by {
        forall k | 0 <= k < |cut| ensures IsSpace(cut[k]) {
          if k < |init| - |r| {
            assert cut[k] == init[|r|..][k];
          }
        }
      }
    } else {
      assert s[|s|..] == [];
    }
  }

  /** `Trim(s)` is the infix of `s` between two runs of white space, with no white
      space at either end of it; it is empty exactly when `s` is all white space. */
  lemma TrimSpec(s: string)
    ensures var r := Trim(s);
            exists i :: 0 <= i && i + |r| <= |s| && r == s[i..i + |r|]
                        && AllSpace(s[..i]) && AllSpace(s[i + |r|..])
    ensures var r := Trim(s); r != [] ==> !IsSpace(r[0]) && !IsSpace(r[|r| - 1])
    ensures Trim(s) == [] <==> AllSpace(s)
  {
    var t := TrimStart(s);
    TrimStartSpec(s);
    TrimEndSpec(t);
    var r := Trim(s);
    var i := |s| - |t|;
    assert r == s[i..i + |r|];
    assert s[i + |r|..] == t[|r|..];
    if r == [] {
      assert t == [];
      assert s[..i] == s;
    } else {
      assert s[i] == t[0];
    }
  }

  /** Trimming twice is trimming once. */
  lemma TrimIdempotent(s: string)
    ensures Trim(Trim(s)) == Trim(s)
  {
    var r := Trim(s);
    TrimSpec(s);
    if r != [] {
      assert TrimStart(r) == r;
      assert TrimEnd(r) == r;
    }
  }

  /** A string of digits has no white space to trim. */
  lemma TrimDigits(s: string)
    requires AllDigits(s)
    ensures Trim(s) == s
  {
    if s != [] {
      assert !IsSpace(s[0]) && !IsSpace(s[|s| - 1]);
    }
  }

  /** JavaScript's `length` of a string: its UTF-16 code units, one for a
      character of the Basic Multilingual Plane and two (a surrogate pair) for
      any character above U+FFFF. */
  function Utf16Length(s: string): (n: nat)
    ensures |s| <= n <= 2 * |s|
    ensures n == |s| <==> forall i :: 0 <= i < |s| ==> s[i] as int <= 0xFFFF
  {
    if s == [] then 0
    else
      var n := Utf16Length(s[1..]);
      assert forall i :: 1 <= i < |s| ==> s[i] == s[1..][i - 1];
      n + if s[0] as int <= 0xFFFF then 1 else 2
  }

  /** Lengths of a concatenation add up. */
  lemma {:induction false} Utf16LengthAppend(a: string, b: string)
    ensures Utf16Length(a + b) == Utf16Length(a) + Utf16Length(b)
  {
    if a != [] {
      assert (a + b)[0] == a[0] && (a + b)[1..] == a[1..] + b;
      Utf16LengthAppend(a[1..], b);
    } else {
      assert a + b == b;
    }
  }

  /** One emoji is a string of length two. */
  lemma EmojiIsTwoUnits()
    ensures Utf16Length("\U{1F600}") == 2 && |"\U{1F600}"| == 1
  {
  }

  /** JavaScript's `String(v)`: the text of a number, `"null"`, `"undefined"`,
      `"true"`/`"false"`, the string itself, the elements joined by commas (null and
      undefined elements as empty strings), `"[object Object]"`. */
  function JsString(v: Value): (s: string)
    ensures v.Str? ==> s == v.s
    ensures v.Num? && v.n >= 0 ==> s == DecimalString(v.n)
    decreases v
  {
    match v
    case Undefined => "undefined"
    case Null => "null"
    case Bool(b) => if b then "true" else "false"
    case Num(n) => if n < 0 then "-" + DecimalString(-n) else DecimalString(n)
    case Str(s) => s
    case Arr(items) => JoinFrom(v, 0)
    case Obj(_) => "[object Object]"
  }

  /** The elements of an array from index `i` on, as `Array.prototype.join` writes them. */
  function JoinFrom(v: Value, i: nat): string
    requires v.Arr?
    decreases v, |v.items| - i
  {
    if i >= |v.items| then ""
    else
      var e := v.items[i];
      (if i > 0 then "," else "") + (if e == Null || e == Undefined then "" else JsString(e)) + JoinFrom(v, i + 1)
  }

  /** A decimal integer literal as JavaScript's `Number` reads it: an optional
      sign, then one or more ASCII digits (no underscore, no white space). */
  predicate SignedDigits(t: string)
  {
    || (t != "" && AllDigits(t))
    || (|t| >= 2 && (t[0] == '+' || t[0] == '-') && AllDigits(t[1..]))
  }

  /** The value of a `SignedDigits` text; `None` for any other text. */
  function SignedValue(t: string): (r: Option<int>)
    ensures r.Some? <==> SignedDigits(t)
  {
    if t != "" && AllDigits(t) then Some(NumberOf(t).value)
    else if |t| >= 2 && t[0] == '+' && AllDigits(t[1..]) then Some(NumberOf(t[1..]).value)
    else if |t| >= 2 && t[0] == '-' && AllDigits(t[1..]) then Some(-(NumberOf(t[1..]).value as int))
    else None
  }

  /** JavaScript's `Number(s)` on a string, for decimal integers: it is trimmed
      (`Trim`, ECMAScript white space), blank text is 0, and otherwise the
      trimmed text must be an optionally signed run of ASCII digits; `None`
      stands for NaN. A string of digits needs no trimming, so it is read
      directly. */
  function StringToNumber(s: string): (r: Option<int>)
    ensures AllDigits(s) && s != "" ==> r == Some(NumberOf(s).value)
  {
    if AllDigits(s) then
      if s == "" then Some(0) else Some(NumberOf(s).value)
    else
      var t := Trim(s);
      if t == "" then Some(0) else SignedValue(t)
  }

  /** `StringToNumber` is trim-then-read on every string: blank text is 0, and
      otherwise the number is defined exactly when the trimmed text is an
      optionally signed digit run, with the sign applied to its value. */
  lemma StringToNumberTrims(s: string)
    ensures StringToNumber(s) == var t := Trim(s); if t == "" then Some(0) else SignedValue(t)
    ensures Trim(s) == "" ==> StringToNumber(s) == Some(0)
    ensures Trim(s) != "" ==> (StringToNumber(s).Some? <==> SignedDigits(Trim(s)))
    ensures var t := Trim(s);
            |t| >= 2 && AllDigits(t[1..]) ==>
              && (t[0] == '+' ==> StringToNumber(s) == Some(NumberOf(t[1..]).value))
              && (t[0] == '-' ==> StringToNumber(s) == Some(-(NumberOf(t[1..]).value as int)))
  {
    if AllDigits(s) {
      TrimDigits(s);
    }
  }

  /** `Number` reads padded and signed integers. */
  lemma StringToNumberPadded()
    ensures StringToNumber(" -42\n") == Some(-42)
  {
    assert Trim(" -42\n") == "-42" by {
      assert TrimStart(" -42\n") == "-42\n";
      assert TrimEnd("-42\n") == "-42";
    }
    assert NumberOf("42") == Some(42) by {
      assert "42"[..1] == "4";
    }
    StringToNumberTrims(" -42\n");
  }

  lemma StringToNumberPlus()
    ensures StringToNumber("+7") == Some(7)
  {
    assert Trim("+7") == "+7" by {
      assert !IsSpace('+') && !IsSpace('7');
    }
    StringToNumberTrims("+7");
  }

  /** `Number` gives NaN for an underscore between digits. */
  lemma StringToNumberUnderscore()
    ensures StringToNumber("1_0").None?
  {
    assert Trim("1_0") == "1_0" by {
      assert !IsSpace('1') && !IsSpace('0');
    }
    assert "1_0"[1] == '_' && !IsDigit('_');
    StringToNumberTrims("1_0");
  }

  /** `Number` gives NaN for a control character that is not ECMAScript white
      space. */
  lemma StringToNumberControl()
    ensures StringToNumber("\U{1C}7").None?
  {
    assert Trim("\U{1C}7") == "\U{1C}7" by {
      assert !IsSpace('\U{1C}') && !IsSpace('7');
    }
    assert !IsDigit("\U{1C}7"[0]);
    StringToNumberTrims("\U{1C}7");
  }

  /** Python's `int` reads both texts `Number` rejects above: it drops the
      underscore and strips U+001C as white space. */
  lemma ParseIntReadsWhatNumberRejects()
    ensures ParseInt("1_0") == Some(10)
    ensures ParseInt("\U{1C}7") == Some(7)
  {
    ParseIntUnderscore("1", "0");
    assert "1" + "_" + "0" == "1_0" && "1" + "0" == "10";
    ParseIntDecimalString(10);
    assert DecimalString(10) == "10";
    ParseIntPadded("\U{1C}", 7, "", false);
    assert "\U{1C}" + "" + DecimalString(7) + "" == "\U{1C}7";
  }

  /** JavaScript's `Number(v)` on integral values; `None` stands for NaN. */
  function JsNumber(v: Value): (r: Option<int>)
    ensures v.Num? ==> r == Some(v.n)
    ensures v.Str? ==> r == StringToNumber(v.s)
    ensures v == Undefined || v.Obj? ==> r.None?
  {
    match v
    case Undefined => None
    case Null => Some(0)
    case Bool(b) => Some(if b then 1 else 0)
    case Num(n) => Some(n)
    case Str(s) => StringToNumber(s)
    case Arr(items) =>
      if items == [] then Some(0)
      else if |items| == 1 then StringToNumber(JsString(v))
      else None
    case Obj(_) => None
  }

  /** The index of the first `c` in `s`, `|s|` when there is none. */
  function IndexOf(s: string, c: char): (i: nat)
    ensures i <= |s| && c !in s[..i]
    ensures i < |s| ==> s[i] == c
    ensures i == |s| <==> c !in s
  {
    if s == [] then 0
    else if s[0] == c then 0
    else
      var j := IndexOf(s[1..], c);
      assert s[..j + 1] == [s[0]] + s[1..][..j];
      assert s == s[..1] + s[1..];
      j + 1
  }

  /** `s.replace(from, to)` with a one-character string pattern: the first
      occurrence of `from`, if any, becomes `to`, and every other character
      stays. */
  function ReplaceFirst(s: string, from: char, to: char): (r: string)
    ensures from !in s ==> r == s
    ensures |r| == |s|
    ensures from in s ==> r[IndexOf(s, from)] == to
    ensures forall k :: 0 <= k < |s| && k != IndexOf(s, from) ==> r[k] == s[k]
  {
    var i := IndexOf(s, from);
    if i == |s| then s else s[..i] + [to] + s[i + 1..]
  }

  /** `s.padStart(n, c)` with a one-character pad: `c` is put in front until
      the string is `n` long. */
  function PadStart(s: string, n: nat, c: char): string
    decreases n - |s|
  {
    if |s| < n then PadStart([c] + s, n, c) else s
  }
}
