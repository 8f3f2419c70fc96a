/** The .NET text primitives the server relies on: `Int32.ToString()`,
    `int.Parse`/`int.TryParse`, `String.Split(char)` and `String.Join`.
    Everything is over `seq<char>`; the invariant culture is assumed. */
module Text {
  import opened Wrappers

  /** C#'s 32-bit `int`. */
  newtype int32 = x: int | -0x8000_0000 <= x < 0x8000_0000

  predicate IsDigit(c: char) { '0' <= c <= '9' }

  /** The characters `NumberStyles.Integer` skips around a number: U+0009..U+000D and U+0020. */
  predicate IsWhite(c: char) { c == ' ' || '\t' <= c <= '\r' }

  predicate AllDigits(s: string) { forall i :: 0 <= i < |s| ==> IsDigit(s[i]) }

  function DigitChar(d: nat): (c: char)
    requires d < 10
    ensures IsDigit(c)
  {
    ('0' as int + d) as char
  }

  function DigitValue(c: char): (d: nat)
    requires IsDigit(c)
    ensures d < 10 && DigitChar(d) == c
  {
    c as int - '0' as int
  }

  /** Decimal digits of `n`, most significant first, without leading zeros. */
  function NatToString(n: nat): string
  {
    if n < 10 then [DigitChar(n)] else NatToString(n / 10) + [DigitChar(n % 10)]
  }

  /** `Int32.ToString()`: an optional '-' followed by the decimal digits. */
  function IntToString(n: int): string
  {
    if n < 0 then "-" + NatToString(-n) else NatToString(n)
  }

  /** The value of a run of decimal digits. */
  function DigitsValue(s: string): nat
    requires AllDigits(s)
  {
    if s == [] then 0 else DigitsValue(s[..|s| - 1]) * 10 + DigitValue(s[|s| - 1])
  }

  function TrimStart(s: string): string
  {
    if s != [] && IsWhite(s[0]) then TrimStart(s[1..]) else s
  }

  function TrimEnd(s: string): string
  {
    if s != [] && IsWhite(s[|s| - 1]) then TrimEnd(s[..|s| - 1]) else s
  }

  /** `s` without its trailing '\0' characters. */
  function TrimNulls(s: string): string
  {
    if s != [] && s[|s| - 1] == '\0' then TrimNulls(s[..|s| - 1]) else s
  }

  /** `int.Parse(s)` (None where it throws) and `int.TryParse(s, out v)` (None where it
      returns false): optional white space, an optional sign, at least one digit, optional
      white space, any number of trailing '\0' characters, and a value that fits in 32 bits. */
  function ParseInt32(s: string): Option<int32>
  {
    var t := TrimEnd(TrimNulls(TrimStart(s)));
    var signed := |t| > 0 && (t[0] == '-' || t[0] == '+');
    var digits := if signed then t[1..] else t;
    if |digits| == 0 || !AllDigits(digits) then None
    else
      var v: int := if signed && t[0] == '-' then 0 - DigitsValue(digits) as int else DigitsValue(digits) as int;
      if -0x8000_0000 <= v < 0x8000_0000 then Some(v as int32) else None
  }

  /** `s.Length`: the number of UTF-16 code units of `s`, where a character outside the
      Basic Multilingual Plane takes a surrogate pair. */
  function Utf16Length(s: string): (n: nat)
    ensures |s| <= n <= 2 * |s|
    ensures (forall i :: 0 <= i < |s| ==> s[i] as int <= 0xFFFF) ==> n == |s|
  {
    if s == [] then 0
    else
      assert forall i :: 0 <= i < |s| - 1 ==> s[1..][i] == s[i + 1];
      (if s[0] as int > 0xFFFF then 2 else 1) + Utf16Length(s[1..])
  }

  /** Code units add up over concatenation. */
  lemma {:induction false} Utf16LengthAppend(a: string, b: string)
    ensures Utf16Length(a + b) == Utf16Length(a) + Utf16Length(b)
  {
    if a == [] {
      assert a + b == b;
    } else {
      assert (a + b)[0] == a[0] && (a + b)[1..] == a[1..] + b;
      Utf16LengthAppend(a[1..], b);
    }
  }

  /** One character is one code unit, or a surrogate pair above U+FFFF. */
  lemma Utf16LengthOfChar(c: char)
    ensures Utf16Length([c]) == if c as int > 0xFFFF then 2 else 1
  {
    assert [c][1..] == [];
  }

  /** `s.Split(sep)`: the pieces between separators, empty pieces included; never empty. */
  function Split(s: string, sep: char): (parts: seq<string>)
    ensures |parts| >= 1
  {
    if s == [] then [[]]
    else
      var rest := Split(s[1..], sep);
      if s[0] == sep then [[]] + rest else [[s[0]] + rest[0]] + rest[1..]
  }

  /** `string.Join(sep, parts)`. */
  function Join(sep: string, parts: seq<string>): string
  {
    if |parts| == 0 then ""
    else if |parts| == 1 then parts[0]
    else parts[0] + sep + Join(sep, parts[1..])
  }

  /** The pieces that are not empty, in order (LINQ `Where(x => !string.IsNullOrEmpty(x))`). */
  function NonEmpty(parts: seq<string>): (r: seq<string>)
    ensures forall i :: 0 <= i < |r| ==> r[i] != []
    ensures |r| <= |parts|
  {
    if parts == [] then []
    else if parts[0] == [] then NonEmpty(parts[1..])
    else [parts[0]] + NonEmpty(parts[1..])
  }

  // ---- lemmas -------------------------------------------------------------

  lemma {:induction false} NatToStringDigits(n: nat)
    ensures |NatToString(n)| > 0 && AllDigits(NatToString(n))
    ensures DigitsValue(NatToString(n)) == n
  {
    if n >= 10 {
      NatToStringDigits(n / 10);
      var s := NatToString(n);
      assert s[..|s| - 1] == NatToString(n / 10);
      assert s[|s| - 1] == DigitChar(n % 10);
    }
  }

  /** `Int32.ToString()` never produces white space, a comma, a new line or a '|'; it is
      never empty. */
  lemma IntToStringShape(n: int)
    ensures |IntToString(n)| > 0
    ensures forall i :: 0 <= i < |IntToString(n)| ==> IsDigit(IntToString(n)[i]) || IntToString(n)[i] == '-'
    ensures IsDigit(IntToString(n)[|IntToString(n)| - 1])
  {
    if n < 0 { NatToStringDigits(-n); } else { NatToStringDigits(n); }
  }

  /** Two emoji are two characters but four UTF-16 code units. */
  lemma SurrogatePairsCountTwice()
    ensures |"\U{1F600}\U{1F600}"| == 2 && Utf16Length("\U{1F600}\U{1F600}") == 4
  {
  }

  /** Trailing '\0' characters and white space around a number are skipped. */
  lemma ParseSkipsTrailingNulls()
    ensures ParseInt32(" 42 \0\0") == Some(42)
    ensures ParseInt32("42\0 ") == None
  {
    var s := " 42 \0\0";
    assert TrimStart(s) == "42 \0\0";
    assert TrimNulls("42 \0\0") == "42 ";
    assert TrimEnd("42 ") == "42";
    assert DigitsValue("42") == 42 by {
      assert "42"[..1] == "4";
    }
    var u := "42\0 ";
    assert TrimStart(u) == u && TrimNulls(u) == u;
    assert TrimEnd(u) == "42\0";
    assert !IsDigit("42\0"[2]);
  }

  /** `int.Parse(n.ToString()) == n` for every 32-bit `n`. */
  lemma {:induction false} ParseIntToString(n: int32)
    ensures ParseInt32(IntToString(n as int)) == Some(n)
  {
    var s := IntToString(n as int);
    IntToStringShape(n as int);
    assert TrimStart(s) == s;
    assert TrimNulls(s) == s;
    assert TrimEnd(s) == s;
    if n < 0 {
      var d := NatToString(-(n as int));
      NatToStringDigits(-(n as int));
      assert s[0] == '-' && s[1..] == d;
      assert 0 - DigitsValue(d) as int == n as int;
    } else {
      var d := NatToString(n as int);
      NatToStringDigits(n as int);
      assert s == d && IsDigit(s[0]);
      assert DigitsValue(d) as int == n as int;
    }
  }

  lemma {:induction false} SplitNoSep(s: string, sep: char)
    requires forall i :: 0 <= i < |s| ==> s[i] != sep
    ensures Split(s, sep) == [s]
  {
    if s != [] {
      SplitNoSep(s[1..], sep);
      assert [s[0]] + s[1..] == s;
    }
  }

  lemma SplitFree(s: string, sep: char)
    requires sep !in s
    ensures Split(s, sep) == [s]
  {
    SplitNoSep(s, sep);
  }

  /** Splitting distributes over a separator placed between two strings. */
  lemma {:induction false} SplitAppend(a: string, b: string, sep: char)
    ensures Split(a + [sep] + b, sep) == Split(a, sep) + Split(b, sep)
  {
    if a == [] {
      assert a + [sep] + b == [sep] + b;
      assert ([sep] + b)[1..] == b;
    } else {
      var s := a + [sep] + b;
      assert s[0] == a[0];
      assert s[1..] == a[1..] + [sep] + b;
      SplitAppend(a[1..], b, sep);
    }
  }

  /** Three texts free of `sep`, joined by `sep`, split back into the three. */
  lemma SplitThreeLines(a: string, b: string, c: string, sep: char)
    requires sep !in a && sep !in b && sep !in c
    ensures Split(a + [sep] + b + [sep] + c, sep) == [a, b, c]
  {
    SplitAppend(a + [sep] + b, c, sep);
    SplitAppend(a, b, sep);
    SplitFree(a, sep);
    SplitFree(b, sep);
    SplitFree(c, sep);
  }

  /** Splitting a join on the same separator gives the parts back when none contains it. */
  lemma {:induction false} SplitJoin(parts: seq<string>, sep: char)
    requires |parts| >= 1
    requires forall k, i :: 0 <= k < |parts| && 0 <= i < |parts[k]| ==> parts[k][i] != sep
    ensures Split(Join([sep], parts), sep) == parts
  {
    if |parts| == 1 {
      SplitNoSep(parts[0], sep);
    } else {
      SplitJoin(parts[1..], sep);
      SplitNoSep(parts[0], sep);
      SplitAppend(parts[0], Join([sep], parts[1..]), sep);
      assert parts[0] + [sep] + Join([sep], parts[1..]) == Join([sep], parts);
      assert [parts[0]] + parts[1..] == parts;
    }
  }

  lemma {:induction false} NonEmptyAppend(a: seq<string>, b: seq<string>)
    ensures NonEmpty(a + b) == NonEmpty(a) + NonEmpty(b)
  {
    if a != [] {
      assert (a + b)[0] == a[0];
      assert (a + b)[1..] == a[1..] + b;
      NonEmptyAppend(a[1..], b);
      if a[0] == [] {
        assert NonEmpty(a + b) == NonEmpty(a[1..] + b);
      } else {
        assert NonEmpty(a + b) == [a[0]] + NonEmpty(a[1..] + b);
      }
    } else {
      assert a + b == b;
    }
  }

  lemma {:induction false} NonEmptyKeeps(parts: seq<string>)
    requires forall i :: 0 <= i < |parts| ==> parts[i] != []
    ensures NonEmpty(parts) == parts
  {
    if parts != [] {
      NonEmptyKeeps(parts[1..]);
    }
  }

  /** The position of the first `c` in `s`, or `|s|` when there is none. */
  function IndexOf(s: string, c: char): (i: nat)
    ensures i <= |s| && forall k :: 0 <= k < i ==> s[k] != c
    ensures i < |s| ==> s[i] == c
  {
    if s == [] then 0
    else if s[0] == c then 0
    else
      IndexOf(s[1..], c) + 1
  }

  /** The first part of a split is the text before the first separator. */
  lemma {:induction false} SplitHead(s: string, sep: char)
    ensures Split(s, sep)[0] == s[..IndexOf(s, sep)]
  {
    if s != [] && s[0] != sep {
      SplitHead(s[1..], sep);
      assert s[..IndexOf(s, sep)] == [s[0]] + s[1..][..IndexOf(s[1..], sep)];
    }
  }

  /** Joining parts free of `c` with a separator free of `c` gives a text free of `c`. */
  lemma {:induction false} JoinFree(sep: string, parts: seq<string>, c: char)
    requires c !in sep
    requires forall k :: 0 <= k < |parts| ==> c !in parts[k]
    ensures c !in Join(sep, parts)
  {
    if |parts| > 1 {
      JoinFree(sep, parts[1..], c);
    }
  }

  /** The decimal form of an integer holds nothing but digits and '-'. */
  lemma IntToStringFree(n: int, c: char)
    requires !IsDigit(c) && c != '-'
    ensures c !in IntToString(n)
  {
    IntToStringShape(n);
  }

  /** A text free of `c` followed by another is free of `c`. */
  lemma AppendFree(c: char, a: string, b: string)
    requires c !in a && c !in b
    ensures c !in a + b
  {
  }
}
