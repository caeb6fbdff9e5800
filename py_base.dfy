/**
 * The fragment of Python's built-in behaviour the drone controller relies on:
 * optional values and raised exceptions, `str.split` on one character,
 * `str.join`, `int()` on text, `str()` on integers, `str.strip`, `str.lower`
 * and byte strings.
 */
module PyBase {

  datatype Option<+T> = None | Some(value: T)

  datatype Result<+T, +E> = Ok(value: T) | Err(error: E)

  /** The Python exceptions that the modelled code can raise. */
  datatype Exc =
    | IndexError
    | ValueError
    | KeyError
    | TypeError
    | AttributeError
    | InterruptedError
    | NoVideoDecoderError

  newtype byte = b: int | 0 <= b < 256

  // ---------------------------------------------------------------------
  // str.split(sep) and sep.join(parts) for a one-character separator
  // ---------------------------------------------------------------------

  /** `s.split(sep)`: never empty, and no piece contains the separator. */
  function Split(s: string, sep: char): (r: seq<string>)
    ensures |r| >= 1
    ensures forall i :: 0 <= i < |r| ==> sep !in r[i]
    decreases |s|
  {
    if |s| == 0 then [""]
    else
      var rest := Split(s[1..], sep);
      if s[0] == sep then [""] + rest
      else [[s[0]] + rest[0]] + rest[1..]
  }

  /** `sep.join(parts)`. */
  function Join(parts: seq<string>, sep: char): string
    decreases |parts|
  {
    if |parts| == 0 then ""
    else if |parts| == 1 then parts[0]
    else parts[0] + [sep] + Join(parts[1..], sep)
  }

  /** A piece without the separator splits to itself. */
  lemma {:induction false} SplitNoSep(s: string, sep: char)
    requires sep !in s
    ensures Split(s, sep) == [s]
    decreases |s|
  {
    if |s| > 0 {
      SplitNoSep(s[1..], sep);
      assert [s[0]] + s[1..] == s;
    }
  }

  /** Splitting `a + sep + b` where `a` has no separator peels `a` off. */
  lemma {:induction false} SplitCons(a: string, sep: char, b: string)
    requires sep !in a
    ensures Split(a + [sep] + b, sep) == [a] + Split(b, sep)
    decreases |a|
  {
    if |a| == 0 {
      assert a + [sep] + b == [sep] + b;
      assert ([sep] + b)[1..] == b;
    } else {
      SplitCons(a[1..], sep, b);
      assert (a + [sep] + b)[1..] == a[1..] + [sep] + b;
      assert [a[0]] + a[1..] == a;
    }
  }

  /** `len(s.split(sep)) > 1` exactly when `sep in s`. */
  lemma {:induction false} SplitCountsSep(s: string, sep: char)
    ensures |Split(s, sep)| > 1 <==> sep in s
    decreases |s|
  {
    if |s| > 0 {
      SplitCountsSep(s[1..], sep);
      assert s == [s[0]] + s[1..];
    }
  }

  /** Joining the pieces of a split gives the text back. */
  lemma {:induction false} JoinSplit(s: string, sep: char)
    ensures Join(Split(s, sep), sep) == s
    decreases |s|
  {
    if |s| > 0 {
      JoinSplit(s[1..], sep);
      var rest := Split(s[1..], sep);
      if s[0] == sep {
        assert Split(s, sep) == [""] + rest;
        assert s == [sep] + s[1..];
      } else {
        var r := Split(s, sep);
        assert r == [[s[0]] + rest[0]] + rest[1..];
        if |rest| == 1 {
          assert Join(r, sep) == [s[0]] + rest[0];
        } else {
          assert ([[s[0]] + rest[0]] + rest[1..])[1..] == rest[1..];
          assert Join(r, sep) == [s[0]] + rest[0] + [sep] + Join(rest[1..], sep);
          assert Join(rest, sep) == rest[0] + [sep] + Join(rest[1..], sep);
        }
        assert s == [s[0]] + s[1..];
      }
    }
  }

  /** Splitting a join of separator-free pieces gives the pieces back. */
  lemma {:induction false} SplitJoin(parts: seq<string>, sep: char)
    requires |parts| >= 1
    requires forall i :: 0 <= i < |parts| ==> sep !in parts[i]
    ensures Split(Join(parts, sep), sep) == parts
    decreases |parts|
  {
    if |parts| == 1 {
      SplitNoSep(parts[0], sep);
    } else {
      SplitJoin(parts[1..], sep);
      SplitCons(parts[0], sep, Join(parts[1..], sep));
      assert parts == [parts[0]] + parts[1..];
    }
  }

  /** Joining with one more piece at the end. */
  lemma {:induction false} JoinSnoc(parts: seq<string>, last: string, sep: char)
    requires |parts| >= 1
    ensures Join(parts + [last], sep) == Join(parts, sep) + [sep] + last
    decreases |parts|
  {
    if |parts| == 1 {
      assert parts + [last] == [parts[0], last];
    } else {
      JoinSnoc(parts[1..], last, sep);
      assert (parts + [last])[1..] == parts[1..] + [last];
    }
  }

  /** A join of pieces free of a character other than the separator is free of it. */
  lemma {:induction false} JoinAvoids(parts: seq<string>, sep: char, ch: char)
    requires ch != sep
    requires forall i :: 0 <= i < |parts| ==> ch !in parts[i]
    ensures ch !in Join(parts, sep)
    decreases |parts|
  {
    if |parts| > 1 {
      JoinAvoids(parts[1..], sep, ch);
    }
  }

  /** The pieces of a split are free of any character the text is free of. */
  lemma {:induction false} SplitAvoids(s: string, sep: char, ch: char)
    requires ch !in s
    ensures forall i :: 0 <= i < |Split(s, sep)| ==> ch !in Split(s, sep)[i]
    decreases |s|
  {
    if |s| > 0 {
      assert ch !in s[1..];
      SplitAvoids(s[1..], sep, ch);
      var rest := Split(s[1..], sep);
      if s[0] != sep {
        assert ch !in [s[0]] + rest[0];
      }
    }
  }

  // ---------------------------------------------------------------------
  // str.isspace, str.strip, str.lower
  // ---------------------------------------------------------------------

  /** The characters for which Python's `str.isspace()` holds. */
  predicate IsSpace(ch: char)
  {
    ch == ' ' || ('\t' <= ch <= '\r') || ('\U{1c}' <= ch <= '\U{1f}')
    || ch == '\U{85}' || ch == '\U{a0}' || ch == '\U{1680}'
    || ('\U{2000}' <= ch <= '\U{200a}') || ch == '\U{2028}' || ch == '\U{2029}'
    || ch == '\U{202f}' || ch == '\U{205f}' || ch == '\U{3000}'
  }

  function LStrip(s: string): (r: string)
    ensures |r| <= |s|
    ensures |r| > 0 ==> !IsSpace(r[0])
    decreases |s|
  {
    if |s| > 0 && IsSpace(s[0]) then LStrip(s[1..]) else s
  }

  function RStrip(s: string): (r: string)
    ensures |r| <= |s|
    ensures |r| > 0 ==> !IsSpace(r[|r| - 1])
    decreases |s|
  {
    if |s| > 0 && IsSpace(s[|s| - 1]) then RStrip(s[..|s| - 1]) else s
  }

  /** `s.strip()`: the result has no white space at either end. */
  function Strip(s: string): (r: string)
    ensures |r| > 0 ==> !IsSpace(r[0]) && !IsSpace(r[|r| - 1])
  {
    RStripPrefix(LStrip(s));
    RStrip(LStrip(s))
  }

  /** LStrip drops a prefix. */
  lemma {:induction false} LStripSuffix(s: string)
    ensures LStrip(s) == s[|s| - |LStrip(s)|..]
    decreases |s|
  {
    if |s| > 0 && IsSpace(s[0]) {
      LStripSuffix(s[1..]);
    }
  }

  /** RStrip drops a suffix. */
  lemma {:induction false} RStripPrefix(s: string)
    ensures RStrip(s) == s[..|RStrip(s)|]
    decreases |s|
  {
    if |s| > 0 && IsSpace(s[|s| - 1]) {
      RStripPrefix(s[..|s| - 1]);
    }
  }

  /** Stripping keeps only characters the text already had. */
  lemma StripChars(s: string)
    ensures forall ch :: ch in Strip(s) ==> ch in s
  {
    LStripSuffix(s);
    RStripPrefix(LStrip(s));
  }

  /** Text without white space at its ends is its own strip. */
  lemma StripNoSpace(s: string)
    requires |s| > 0 ==> !IsSpace(s[0]) && !IsSpace(s[|s| - 1])
    ensures Strip(s) == s
  {
  }

  /** What LStrip drops is white space. */
  lemma {:induction false} LStripSpaces(s: string)
    ensures forall i :: 0 <= i < |s| - |LStrip(s)| ==> IsSpace(s[i])
    decreases |s|
  {
    if |s| > 0 && IsSpace(s[0]) {
      LStripSpaces(s[1..]);
      forall i | 0 < i < |s| - |LStrip(s)| ensures IsSpace(s[i]) {
        assert s[i] == s[1..][i - 1];
      }
    }
  }

  /** What RStrip drops is white space. */
  lemma {:induction false} RStripSpaces(s: string)
    ensures forall i :: |RStrip(s)| <= i < |s| ==> IsSpace(s[i])
    decreases |s|
  {
    if |s| > 0 && IsSpace(s[|s| - 1]) {
      RStripSpaces(s[..|s| - 1]);
      forall i | |RStrip(s)| <= i < |s| - 1 ensures IsSpace(s[i]) {
        assert s[i] == s[..|s| - 1][i];
      }
    }
  }

  /** The strip is the slice of the text that LStrip leaves, cut to the strip's length. */
  lemma StripIsSlice(s: string)
    ensures |s| - |LStrip(s)| + |Strip(s)| <= |s|
    ensures Strip(s) == s[|s| - |LStrip(s)|..|s| - |LStrip(s)| + |Strip(s)|]
  {
    var t := LStrip(s);
    LStripSuffix(s);
    RStripPrefix(t);
    assert Strip(s) == RStrip(t) == t[..|Strip(s)|];
  }

  /** What RStrip drops after LStrip is white space. */
  lemma StripTrailing(s: string)
    ensures forall i :: |s| - |LStrip(s)| + |Strip(s)| <= i < |s| ==> IsSpace(s[i])
  {
    var t := LStrip(s);
    var a := |s| - |t|;
    LStripSuffix(s);
    RStripSpaces(t);
    assert Strip(s) == RStrip(t);
    forall i | a + |Strip(s)| <= i < |s| ensures IsSpace(s[i]) {
      assert s[i] == t[i - a];
    }
  }

  /**
   * `s.strip()` is the slice `s[a:b]` of the text: everything before `a` and
   * from `b` on is white space, and a non-empty result starts and ends with
   * a character that is not.
   */
  lemma StripSlice(s: string)
    ensures var a := |s| - |LStrip(s)|;
      var b := a + |Strip(s)|;
      0 <= a <= b <= |s| && Strip(s) == s[a..b] &&
      (forall i :: 0 <= i < a ==> IsSpace(s[i])) &&
      (forall i :: b <= i < |s| ==> IsSpace(s[i])) &&
      (a < b ==> !IsSpace(s[a]) && !IsSpace(s[b - 1]))
  {
    StripIsSlice(s);
    LStripSpaces(s);
    StripTrailing(s);
  }

  function LowerChar(ch: char): char
  {
    if 'A' <= ch <= 'Z' then (ch as int + 32) as char else ch
  }

  predicate IsUpper(ch: char) { 'A' <= ch <= 'Z' }

  /**
   * `s.lower()` on the ASCII letters (see the README for why this suffices):
   * same length, no capital letter left, every other character kept, and
   * each capital replaced by the letter 32 code points later.
   */
  function Lower(s: string): (r: string)
    ensures |r| == |s|
    ensures forall i :: 0 <= i < |r| ==> !IsUpper(r[i])
    ensures forall i :: 0 <= i < |s| && !IsUpper(s[i]) ==> r[i] == s[i]
    ensures forall i :: 0 <= i < |s| && IsUpper(s[i]) ==> r[i] as int == s[i] as int + 32
  {
    seq(|s|, i requires 0 <= i < |s| => LowerChar(s[i]))
  }

  /** Lower-casing twice is lower-casing once. */
  lemma LowerIdempotent(s: string)
    ensures Lower(Lower(s)) == Lower(s)
  {
  }

  // ---------------------------------------------------------------------
  // str(n) and int(s)
  // ---------------------------------------------------------------------

  predicate IsDigit(ch: char) { '0' <= ch <= '9' }

  predicate AllDigits(s: string)
  {
    |s| > 0 && forall i :: 0 <= i < |s| ==> IsDigit(s[i])
  }

  function DigitChar(d: nat): char
    requires d < 10
  {
    ('0' as int + d) as char
  }

  /** Value of a run of decimal digits, most significant first. */
  function DigitsValue(s: string): nat
    requires forall i :: 0 <= i < |s| ==> IsDigit(s[i])
    decreases |s|
  {
    if |s| == 0 then 0
    else
      assert IsDigit(s[|s| - 1]);
      DigitsValue(s[..|s| - 1]) * 10 + (s[|s| - 1] as int - '0' as int)
  }

  /** `str(n)` for n >= 0: decimal digits without leading zeros. */
  function NatToStr(n: nat): (r: string)
    ensures AllDigits(r)
    ensures |r| > 1 ==> r[0] != '0'
    decreases n
  {
    if n < 10 then [DigitChar(n)] else NatToStr(n / 10) + [DigitChar(n % 10)]
  }

  /** `str(n)`: a minus sign for negative numbers, then the digits. */
  function IntToStr(n: int): (r: string)
    ensures |r| > 0
    ensures n >= 0 ==> '-' !in r && ' ' !in r
  {
    if n < 0 then "-" + NatToStr(-n) else NatToStr(n)
  }

  /**
   * `int(s)` on text: white space around the number is ignored, one optional
   * sign, then at least one ASCII digit; anything else raises ValueError (None).
   */
  function ParseInt(s: string): Option<int>
  {
    ParseStripped(Strip(s))
  }

  /** Without a minus sign, `int()` never yields a negative number. */
  lemma ParseIntNoMinus(s: string)
    requires '-' !in s
    ensures ParseInt(s).Some? ==> ParseInt(s).value >= 0
  {
    StripChars(s);
  }

  /** `int()` on text already stripped of white space. */
  function ParseStripped(t: string): (r: Option<int>)
    ensures r.Some? && '-' !in t ==> r.value >= 0
  {
    if |t| > 0 && (t[0] == '+' || t[0] == '-') then
      if AllDigits(t[1..]) then
        var v: int := DigitsValue(t[1..]);
        Some(if t[0] == '-' then -v else v)
      else None
    else if AllDigits(t) then Some(DigitsValue(t))
    else None
  }

  lemma {:induction false} DigitsOfNat(n: nat)
    ensures DigitsValue(NatToStr(n)) == n
    decreases n
  {
    if n >= 10 {
      DigitsOfNat(n / 10);
      var s := NatToStr(n);
      assert s[..|s| - 1] == NatToStr(n / 10);
    }
  }

  /** Text made of digits and a leading minus sign holds no white space. */
  lemma NumberHasNoSpace(s: string)
    requires forall i :: 0 <= i < |s| ==> IsDigit(s[i]) || (i == 0 && s[i] == '-')
    ensures forall i :: 0 <= i < |s| ==> !IsSpace(s[i])
  {
  }

  lemma ParseIntDigits(s: string)
    requires AllDigits(s)
    ensures ParseInt(s) == Some(DigitsValue(s))
  {
    NumberHasNoSpace(s);
    StripNoSpace(s);
    ParseStrippedDigits(s);
  }

  lemma ParseStrippedDigits(s: string)
    requires AllDigits(s)
    ensures ParseStripped(s) == Some(DigitsValue(s))
  {
    assert IsDigit(s[0]);
  }

  lemma ParseIntNegative(s: string)
    requires |s| > 1 && s[0] == '-' && AllDigits(s[1..])
    ensures ParseInt(s) == Some(-(DigitsValue(s[1..]) as int))
  {
    forall i | 0 <= i < |s| ensures IsDigit(s[i]) || (i == 0 && s[i] == '-') {
      if i > 0 { assert s[i] == s[1..][i - 1]; }
    }
    NumberHasNoSpace(s);
    StripNoSpace(s);
  }

  /** `int(str(n)) == n`. */
  lemma ParseIntToStr(n: int)
    ensures ParseInt(IntToStr(n)) == Some(n)
  {
    var m: nat := if n < 0 then -n else n;
    var digits := NatToStr(m);
    DigitsOfNat(m);
    if n < 0 {
      var s := "-" + digits;
      assert s[1..] == digits;
      ParseIntNegative(s);
      assert IntToStr(n) == s;
    } else {
      ParseIntDigits(digits);
      assert IntToStr(n) == digits;
    }
  }

  /** Python's `s[k:]` for k >= 0: empty when k is past the end. */
  function SliceFrom<T>(s: seq<T>, k: nat): (r: seq<T>)
    ensures k <= |s| ==> r == s[k..]
    ensures k > |s| ==> r == []
  {
    if k <= |s| then s[k..] else []
  }

  /** Python's `xs[i]` with negative indices counted from the end; None is IndexError. */
  function PyIndex<T>(xs: seq<T>, i: int): (r: Option<T>)
    ensures r.Some? <==> -|xs| <= i < |xs|
    ensures 0 <= i < |xs| ==> r == Some(xs[i])
    ensures -|xs| <= i < 0 ==> r == Some(xs[|xs| + i])
  {
    if 0 <= i < |xs| then Some(xs[i])
    else if -|xs| <= i < 0 then Some(xs[|xs| + i])
    else None
  }
}
