/** The string operations the application relies on: `trim`, `split('\n')`,
    `toLowerCase`, `toUpperCase` of one character, `includes`, decimal
    rendering of numbers in template literals, and `parseInt`.
    Whitespace is a fixed character set and case mapping is ASCII only. */
module Text {
  import opened Wrappers
  import Seqs

  /** The characters `String.prototype.trim` removes, restricted to a fixed set:
      ASCII white space and line ends, no-break space, byte-order mark and the
      two Unicode line/paragraph separators. */
  predicate IsSpace(c: char)
  {
    c == ' ' || c == '\t' || c == '\n' || c == '\r' || c == '\U{B}' || c == '\U{C}'
    || c == '\U{A0}' || c == '\U{FEFF}' || c == '\U{2028}' || c == '\U{2029}'
  }

  /** Every character is white space (the empty string included). */
  predicate IsBlank(s: string)
    decreases |s|
  {
    s == [] || (IsSpace(s[0]) && IsBlank(s[1..]))
  }

  lemma {:induction false} BlankConcat(a: string, b: string)
    requires IsBlank(a) && IsBlank(b)
    ensures IsBlank(a + b)
    decreases |a|
  {
    if a == [] {
      assert a + b == b;
    } else {
      assert (a + b)[1..] == a[1..] + b;
      BlankConcat(a[1..], b);
    }
  }

  lemma {:induction false} BlankParts(a: string, b: string)
    requires IsBlank(a + b)
    ensures IsBlank(a) && IsBlank(b)
    decreases |a|
  {
    if a == [] {
      assert a + b == b;
    } else {
      assert (a + b)[1..] == a[1..] + b;
      BlankParts(a[1..], b);
    }
  }

  /** Each character of a blank string is white space. */
  lemma {:induction false} BlankAt(s: string, i: nat)
    requires IsBlank(s) && i < |s|
    ensures IsSpace(s[i])
    decreases i
  {
    if i > 0 {
      BlankAt(s[1..], i - 1);
    }
  }

  /** The number of white-space characters `s` starts with. */
  function LeadingSpace(s: string): (k: nat)
    ensures k <= |s| && IsBlank(s[..k])
    ensures k < |s| ==> !IsSpace(s[k])
    decreases |s|
  {
    if s != [] && IsSpace(s[0]) then
      var k := 1 + LeadingSpace(s[1..]);
      assert s[..k][1..] == s[1..][..k - 1];
      k
    else
      assert s[..0] == [];
      0
  }

  /** One more white-space character after a blank suffix. */
  lemma BlankSuffixStep(s: string, j: nat)
    requires s != [] && IsSpace(s[|s| - 1]) && j <= |s| - 1 && IsBlank(s[..|s| - 1][j..])
    ensures IsBlank(s[j..])
  {
    var last := [s[|s| - 1]];
    assert last[1..] == [];
    assert s[j..] == s[..|s| - 1][j..] + last;
    BlankConcat(s[..|s| - 1][j..], last);
  }

  /** The number of white-space characters `s` ends with. */
  function TrailingSpace(s: string): (k: nat)
    ensures k <= |s| && IsBlank(s[|s| - k..])
    ensures k < |s| ==> !IsSpace(s[|s| - 1 - k])
    decreases |s|
  {
    if s != [] && IsSpace(s[|s| - 1]) then
      var init := s[..|s| - 1];
      var k := 1 + TrailingSpace(init);
      BlankSuffixStep(s, |s| - k);
      assert k < |s| ==> s[|s| - 1 - k] == init[|init| - 1 - (k - 1)];
      k
    else
      assert s[|s|..] == [];
      0
  }

  /** `s` with its leading white space removed. */
  function TrimStart(s: string): (r: string)
    ensures r == [] || !IsSpace(r[0])
    ensures exists k | 0 <= k <= |s| :: IsBlank(s[..k]) && r == s[k..]
  {
    var k := LeadingSpace(s);
    s[k..]
  }

  /** `s.trim()`: the infix of `s` left after removing white space at both ends. */
  function Trim(s: string): (r: string)
    ensures |r| <= |s|
    ensures r == [] || (!IsSpace(r[0]) && !IsSpace(r[|r| - 1]))
    ensures r == [] <==> IsBlank(s)
    ensures exists k | 0 <= k <= |s| - |r| :: s[k..k + |r|] == r && IsBlank(s[..k]) && IsBlank(s[k + |r|..])
  {
    var a := LeadingSpace(s);
    if a == |s| then
      assert s[..a] == s;
      assert s[|s|..] == [];
      []
    else
      var k := TrailingSpace(s);
      assert a < |s| - k by {
        if a >= |s| - k {
          BlankAt(s[|s| - k..], a - (|s| - k));
        }
      }
      var r := s[a..|s| - k];
      assert !IsBlank(s) by {
        if IsBlank(s) {
          BlankAt(s, a);
        }
      }
      r
  }

  /** `s.trim()` is truthy: the test every `filter(item => item.trim())` applies. */
  predicate HasText(s: string)
  {
    Trim(s) != []
  }

  lemma TrimIdempotent(s: string)
    ensures Trim(Trim(s)) == Trim(s)
  {
  }

  /** `s.trim() || undefined`: the trimmed text, or nothing when it is blank. */
  function TrimmedOrNone(s: string): (r: Option<string>)
    ensures r.None? <==> !HasText(s)
    ensures r.Some? ==> r.value == Trim(s) && HasText(r.value)
  {
    if HasText(s) then
      TrimIdempotent(s);
      Some(Trim(s))
    else None
  }

  /** `items.filter(item => item.trim())`. */
  function NonBlank(items: seq<string>): (r: seq<string>)
    ensures forall i | 0 <= i < |r| :: HasText(r[i])
  {
    Seqs.Filter(items, HasText)
  }

  /** The blank filter is idempotent and keeps exactly the entries with text, in order. */
  lemma NonBlankProperties(items: seq<string>)
    ensures NonBlank(NonBlank(items)) == NonBlank(items)
    ensures Seqs.IsSubsequence(NonBlank(items), items)
    ensures forall x :: x in NonBlank(items) <==> x in items && HasText(x)
  {
    Seqs.FilterIdempotent(items, HasText);
    Seqs.FilterIsSubsequence(items, HasText);
    forall x ensures x in NonBlank(items) <==> x in items && HasText(x) {
      Seqs.FilterMembership(items, HasText, x);
    }
  }

  // ---------------------------------------------------------------- split / join

  /** `s.split(sep)`: the maximal pieces between occurrences of `sep`
      (one piece when `sep` does not occur, `[""]` for the empty string). */
  function Split(s: string, sep: char): (r: seq<string>)
    ensures |r| >= 1
    ensures forall i | 0 <= i < |r| :: sep !in r[i]
    ensures Join(r, sep) == s
    decreases |s|
  {
    if s == [] then [""]
    else
      var rest := Split(s[1..], sep);
      if s[0] == sep then [""] + rest
      else
        var r := [[s[0]] + rest[0]] + rest[1..];
        assert r[1..] == rest[1..];
        r
  }

  /** `pieces.join(sep)`. */
  function Join(pieces: seq<string>, sep: char): string
    decreases |pieces|
  {
    if pieces == [] then ""
    else if |pieces| == 1 then pieces[0]
    else pieces[0] + [sep] + Join(pieces[1..], sep)
  }

  /** Splitting a join of separator-free pieces gives the pieces back. */
  lemma {:induction false} SplitJoin(pieces: seq<string>, sep: char)
    requires |pieces| >= 1
    requires forall i | 0 <= i < |pieces| :: sep !in pieces[i]
    ensures Split(Join(pieces, sep), sep) == pieces
    decreases |pieces|, |pieces[0]|
  {
    var p := pieces[0];
    if p == [] {
      if |pieces| > 1 {
        assert Join(pieces, sep) == [sep] + Join(pieces[1..], sep);
        SplitJoin(pieces[1..], sep);
        assert [sep] + Join(pieces[1..], sep) != [];
        assert ([sep] + Join(pieces[1..], sep))[1..] == Join(pieces[1..], sep);
      }
    } else {
      var shorter := [p[1..]] + pieces[1..];
      assert shorter[1..] == pieces[1..];
      assert forall i | 1 <= i < |shorter| :: shorter[i] == pieces[i];
      assert sep !in shorter[0] by { assert forall c | c in p[1..] :: c in p; }
      SplitJoin(shorter, sep);
      var j := Join(pieces, sep);
      if |pieces| == 1 {
        assert j == p && j[1..] == Join(shorter, sep);
      } else {
        assert j == [p[0]] + (p[1..] + [sep] + Join(pieces[1..], sep));
        assert j[1..] == Join(shorter, sep);
      }
      assert j[0] == p[0] && p[0] != sep;
      assert [j[0]] + p[1..] == p;
      assert [[j[0]] + p[1..]] + pieces[1..] == pieces;
    }
  }

  // ---------------------------------------------------------------- UTF-16 length

  /** The UTF-16 code units of one character: two for a character outside
      the Basic Multilingual Plane (a surrogate pair), one otherwise. */
  function Utf16Units(c: char): nat
  {
    if c as int > 0xFFFF then 2 else 1
  }

  /** `s.length` in JavaScript: the number of UTF-16 code units. */
  function Utf16Length(s: string): (n: nat)
    ensures |s| <= n <= 2 * |s|
    decreases |s|
  {
    if s == [] then 0 else Utf16Units(s[0]) + Utf16Length(s[1..])
  }

  /** The UTF-16 length equals the number of characters exactly when none
      lies outside the Basic Multilingual Plane. */
  lemma {:induction false} Utf16LengthOfBmp(s: string)
    ensures Utf16Length(s) == |s| <==> forall i | 0 <= i < |s| :: s[i] as int <= 0xFFFF
    decreases |s|
  {
    if s != [] {
      Utf16LengthOfBmp(s[1..]);
      assert forall i | 1 <= i < |s| :: s[i] == s[1..][i - 1];
    }
  }

  lemma {:induction false} Utf16LengthConcat(a: string, b: string)
    ensures Utf16Length(a + b) == Utf16Length(a) + Utf16Length(b)
    decreases |a|
  {
    if a == [] {
      assert a + b == b;
    } else {
      assert (a + b)[1..] == a[1..] + b;
      Utf16LengthConcat(a[1..], b);
    }
  }

  /** A piece of a string is no longer than the string, in UTF-16 units. */
  lemma {:induction false} Utf16LengthSplit(s: string, i: nat)
    requires i <= |s|
    ensures Utf16Length(s) == Utf16Length(s[..i]) + Utf16Length(s[i..])
    decreases i
  {
    if i == 0 {
      assert s[..0] == [] && s[0..] == s;
    } else {
      Utf16LengthSplit(s[1..], i - 1);
      assert s[..i][1..] == s[1..][..i - 1];
      assert s[i..] == s[1..][i - 1..];
    }
  }

  lemma Utf16LengthInfix(s: string, i: nat, j: nat)
    requires i <= j <= |s|
    ensures Utf16Length(s[i..j]) <= Utf16Length(s)
  {
    var p := s[..j];
    Utf16LengthSplit(s, j);
    Utf16LengthSplit(p, i);
    assert p[i..] == s[i..j];
  }

  /** What is left between a blank prefix and a blank suffix is no longer
      than the whole, in UTF-16 units. */
  lemma BetweenBlanksUtf16Length(s: string, r: string)
    requires exists k | 0 <= k <= |s| - |r| :: s[k..k + |r|] == r && IsBlank(s[..k]) && IsBlank(s[k + |r|..])
    ensures Utf16Length(r) <= Utf16Length(s)
  {
    var k :| 0 <= k <= |s| - |r| && s[k..k + |r|] == r && IsBlank(s[..k]) && IsBlank(s[k + |r|..]);
    InfixUtf16Length(s, r, k);
  }

  lemma InfixUtf16Length(s: string, r: string, k: nat)
    requires k <= |s| - |r| && s[k..k + |r|] == r
    ensures Utf16Length(r) <= Utf16Length(s)
  {
    Utf16LengthInfix(s, k, k + |r|);
  }

  /** Trimming never lengthens a string in UTF-16 units either. */
  lemma TrimUtf16Length(s: string)
    ensures Utf16Length(Trim(s)) <= Utf16Length(s)
  {
    BetweenBlanksUtf16Length(s, Trim(s));
  }

  /** The longest prefix of `s` that fits in `cap` UTF-16 code units; a
      surrogate pair is kept whole or left out. */
  function Utf16Prefix(s: string, cap: nat): (r: string)
    ensures r <= s && Utf16Length(r) <= cap
    ensures Utf16Length(s) <= cap ==> r == s
    ensures r != s ==> Utf16Length(r) + Utf16Units(s[|r|]) > cap
    decreases |s|
  {
    if s == [] then []
    else if Utf16Units(s[0]) <= cap then
      var rest := Utf16Prefix(s[1..], cap - Utf16Units(s[0]));
      var r := [s[0]] + rest;
      assert r[1..] == rest;
      r
    else
      []
  }

  // ---------------------------------------------------------------- case mapping

  function LowerChar(c: char): char
  {
    if 'A' <= c <= 'Z' then (c as int + 32) as char else c
  }

  function UpperChar(c: char): char
  {
    if 'a' <= c <= 'z' then (c as int - 32) as char else c
  }

  /** `s.toLowerCase()`, ASCII letters only. */
  function ToLower(s: string): (r: string)
    ensures |r| == |s|
    ensures forall i | 0 <= i < |s| :: r[i] == LowerChar(s[i])
  {
    seq(|s|, i requires 0 <= i < |s| => LowerChar(s[i]))
  }

  /** Lower-casing leaves no upper-case ASCII letter and is idempotent. */
  lemma ToLowerIdempotent(s: string)
    ensures forall i | 0 <= i < |s| :: !('A' <= ToLower(s)[i] <= 'Z')
    ensures ToLower(ToLower(s)) == ToLower(s)
  {
  }

  // ---------------------------------------------------------------- substring search

  /** `t` occurs in `s` at position `k`. */
  predicate OccursAt(s: string, t: string, k: int)
  {
    0 <= k && k + |t| <= |s| && s[k..k + |t|] == t
  }

  /** `s.includes(t)`. */
  function Contains(s: string, t: string): (r: bool)
    ensures r <==> exists k :: OccursAt(s, t, k)
    decreases |s|
  {
    if t <= s then
      assert OccursAt(s, t, 0);
      true
    else if s == [] then
      assert forall k :: !OccursAt(s, t, k);
      false
    else
      var r := Contains(s[1..], t);
      assert forall k | OccursAt(s[1..], t, k) :: OccursAt(s, t, k + 1) by {
        forall k | OccursAt(s[1..], t, k) ensures OccursAt(s, t, k + 1) {
          assert s[k + 1..k + 1 + |t|] == s[1..][k..k + |t|];
        }
      }
      assert forall k | OccursAt(s, t, k) :: k >= 1 && OccursAt(s[1..], t, k - 1) by {
        forall k | OccursAt(s, t, k) ensures k >= 1 && OccursAt(s[1..], t, k - 1) {
          assert s[1..][k - 1..k - 1 + |t|] == s[k..k + |t|];
        }
      }
      r
  }

  // ---------------------------------------------------------------- numbers

  predicate IsDigit(c: char)
  {
    '0' <= c <= '9'
  }

  predicate AllDigits(s: string)
  {
    forall i | 0 <= i < |s| :: IsDigit(s[i])
  }

  function DigitChar(d: nat): (c: char)
    requires d < 10
    ensures IsDigit(c) && c as int - '0' as int == d
  {
    ('0' as int + d) as char
  }

  /** The decimal rendering of a natural number: what `${n}` prints. */
  function NatToString(n: nat): (r: string)
    ensures |r| >= 1 && AllDigits(r)
    decreases n
  {
    if n < 10 then [DigitChar(n)] else NatToString(n / 10) + [DigitChar(n % 10)]
  }

  /** The decimal rendering of an integer, with a leading '-' when negative. */
  function IntToString(i: int): (r: string)
    ensures |r| >= 1 && (r[0] == '-' || IsDigit(r[0]))
  {
    if i < 0 then "-" + NatToString(-i) else NatToString(i)
  }

  /** The value of a string of decimal digits. */
  function DigitsValue(s: string): nat
    requires AllDigits(s)
    decreases |s|
  {
    if s == [] then 0 else DigitsValue(s[..|s| - 1]) * 10 + (s[|s| - 1] as int - '0' as int)
  }

  /** The length of the longest prefix of `s` made of digits. */
  function DigitPrefixLength(s: string): (k: nat)
    ensures k <= |s| && AllDigits(s[..k])
    ensures k == |s| || !IsDigit(s[k])
    decreases |s|
  {
    if s == [] || !IsDigit(s[0]) then 0 else 1 + DigitPrefixLength(s[1..])
  }

  /** Reads the decimal number at the start of `s`: its value and the rest of `s`. */
  function ReadNat(s: string): Option<(nat, string)>
  {
    var k := DigitPrefixLength(s);
    if k == 0 then None else Some((DigitsValue(s[..k]), s[k..]))
  }

  /** Reads an optionally negative decimal number at the start of `s`. */
  function ReadInt(s: string): Option<(int, string)>
  {
    if s != [] && s[0] == '-' then
      match ReadNat(s[1..])
      case Some((n, rest)) => var v: int := n; Some((-v, rest))
      case None => None
    else
      match ReadNat(s)
      case Some((n, rest)) => Some((n, rest))
      case None => None
  }

  lemma {:induction false} DigitsValueOfNatToString(n: nat)
    ensures DigitsValue(NatToString(n)) == n
    decreases n
  {
    var s := NatToString(n);
    if n >= 10 {
      DigitsValueOfNatToString(n / 10);
      assert s[..|s| - 1] == NatToString(n / 10);
    }
  }

  lemma {:induction false} DigitPrefixOfAppend(p: string, t: string)
    requires AllDigits(p)
    requires t == [] || !IsDigit(t[0])
    ensures DigitPrefixLength(p + t) == |p|
    decreases |p|
  {
    if p == [] {
      assert p + t == t;
    } else {
      assert (p + t)[1..] == p[1..] + t;
      DigitPrefixOfAppend(p[1..], t);
    }
  }

  /** Reading a rendered natural number back gives the number and the text after it. */
  lemma ReadNatToString(n: nat, rest: string)
    requires rest == [] || !IsDigit(rest[0])
    ensures ReadNat(NatToString(n) + rest) == Some((n, rest))
  {
    var s := NatToString(n);
    DigitPrefixOfAppend(s, rest);
    assert (s + rest)[..|s|] == s;
    assert (s + rest)[|s|..] == rest;
    DigitsValueOfNatToString(n);
  }

  lemma ReadNegative(n: nat, rest: string)
    requires rest == [] || !IsDigit(rest[0])
    ensures ReadInt("-" + NatToString(n) + rest) == Some((-(n as int), rest))
  {
    var s := "-" + NatToString(n) + rest;
    assert s[0] == '-' && s[1..] == NatToString(n) + rest;
    ReadNatToString(n, rest);
  }

  lemma ReadNonNegative(n: nat, rest: string)
    requires rest == [] || !IsDigit(rest[0])
    ensures ReadInt(NatToString(n) + rest) == Some((n, rest))
  {
    var s := NatToString(n) + rest;
    assert s[0] == NatToString(n)[0];
    ReadNatToString(n, rest);
  }

  /** Reading a rendered integer back gives the integer and the text after it. */
  lemma ReadIntToString(i: int, rest: string)
    requires rest == [] || !IsDigit(rest[0])
    ensures ReadInt(IntToString(i) + rest) == Some((i, rest))
  {
    if i < 0 {
      ReadNegative(-i, rest);
    } else {
      ReadNonNegative(i, rest);
    }
  }

  /** `parseInt(s)` in base ten: leading white space is skipped, an optional
      sign and the longest run of digits are read, anything after them is
      ignored; `None` stands for `NaN` (no digit at all). */
  function ParseInt(s: string): Option<int>
  {
    ParseSigned(TrimStart(s))
  }

  /** `parseInt` after the white space: an optional sign, then the digits. */
  function ParseSigned(t: string): Option<int>
  {
    if t != [] && (t[0] == '-' || t[0] == '+') then
      match ReadNat(t[1..])
      case Some((n, _)) => var v: int := n; Some(if t[0] == '-' then -v else v)
      case None => None
    else
      match ReadNat(t)
      case Some((n, _)) => Some(n)
      case None => None
  }

  /** Nothing is trimmed from a string that starts with a non-space. */
  lemma TrimStartUnchanged(s: string)
    requires s != [] && !IsSpace(s[0])
    ensures TrimStart(s) == s
  {
  }

  lemma ReadWholeNat(n: nat)
    ensures ReadNat(NatToString(n)) == Some((n, ""))
  {
    ReadNatToString(n, "");
    assert NatToString(n) + "" == NatToString(n);
  }

  lemma ParseSignedOfIntToString(i: int)
    ensures ParseSigned(IntToString(i)) == Some(i)
  {
    var s := IntToString(i);
    if i < 0 {
      assert s[1..] == NatToString(-i);
      ReadWholeNat(-i);
    } else {
      ReadWholeNat(i);
      assert IsDigit(s[0]);
    }
  }

  /** `parseInt` reads back every integer as it is rendered. */
  lemma ParseIntOfIntToString(i: int)
    ensures ParseInt(IntToString(i)) == Some(i)
  {
    TrimStartUnchanged(IntToString(i));
    ParseSignedOfIntToString(i);
  }

  /** `parseInt` stops at the first character that is not a digit: an
      integer followed by any such text still reads as that integer. */
  lemma ParseIntIgnoresTail(i: int, rest: string)
    requires rest == [] || !IsDigit(rest[0])
    ensures ParseInt(IntToString(i) + rest) == Some(i)
  {
    var s := IntToString(i) + rest;
    assert s[0] == IntToString(i)[0];
    TrimStartUnchanged(s);
    ReadIntToString(i, rest);
    ParseSignedOfReadInt(s);
  }

  /** A sign or digit at the start: `parseInt` after the white space reads what `ReadInt` reads. */
  lemma ParseSignedOfReadInt(t: string)
    requires t != [] && t[0] != '+'
    ensures ReadInt(t).Some? ==> ParseSigned(t) == Some(ReadInt(t).value.0)
  {
  }

  /** White space in front of the number is skipped. */
  lemma ParseIntSkipsSpace(ws: string, t: string)
    requires IsBlank(ws) && (t == [] || !IsSpace(t[0]))
    ensures ParseInt(ws + t) == ParseSigned(t)
  {
    var s := ws + t;
    var k := LeadingSpace(s);
    assert s[..|ws|] == ws && s[|ws|..] == t;
    if k < |ws| {
      BlankAt(ws, k);
    } else if k > |ws| {
      BlankAt(s[..k], |ws|);
    }
    assert TrimStart(s) == t;
  }
}
