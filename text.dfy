/** The string operations the OBJ and MTL readers are built from:
    `str::split` on one character, `str::trim`, and `usize::from_str`. */
module Text {
  import opened Common

  /** `char::is_whitespace`: the characters with Unicode's White_Space
      property. */
  predicate IsWhitespace(c: char)
  {
    c == ' ' || ('\t' <= c <= '\r') || c == '\U{85}' || c == '\U{A0}' || c == '\U{1680}'
    || ('\U{2000}' <= c <= '\U{200A}') || c == '\U{2028}' || c == '\U{2029}'
    || c == '\U{202F}' || c == '\U{205F}' || c == '\U{3000}'
  }

  /** `str::split(sep)`: the pieces between occurrences of `sep`, in order.
      There is always at least one piece; no piece contains `sep`. */
  function Split(s: string, sep: char): (pieces: seq<string>)
    ensures |pieces| >= 1
    ensures forall i :: 0 <= i < |pieces| ==> sep !in pieces[i]
  {
    if |s| == 0 then [""]
    else
      var rest := Split(s[1..], sep);
      if s[0] == sep then [""] + rest
      else [[s[0]] + rest[0]] + rest[1..]
  }

  /** The pieces glued back together with `sep` between neighbours. */
  function Join(pieces: seq<string>, sep: char): string
    requires |pieces| >= 1
  {
    if |pieces| == 1 then pieces[0]
    else pieces[0] + [sep] + Join(pieces[1..], sep)
  }

  /** Splitting loses nothing: joining the pieces gives the input back. */
  lemma {:induction false} JoinSplit(s: string, sep: char)
    ensures Join(Split(s, sep), sep) == s
  {
    if |s| > 0 {
      JoinSplit(s[1..], sep);
      var rest := Split(s[1..], sep);
      if s[0] == sep {
        assert Split(s, sep)[1..] == rest;
      } else {
        if |rest| == 1 {
          assert Join(Split(s, sep), sep) == [s[0]] + rest[0];
        } else {
          assert Split(s, sep)[1..] == rest[1..];
          assert Join(Split(s, sep), sep) == [s[0]] + rest[0] + [sep] + Join(rest[1..], sep);
        }
        assert [s[0]] + s[1..] == s;
      }
    }
  }

  /** Splitting a string that has no separator in it leaves it whole. */
  lemma {:induction false} SplitNoSeparator(s: string, sep: char)
    requires sep !in s
    ensures Split(s, sep) == [s]
  {
    if |s| > 0 {
      SplitNoSeparator(s[1..], sep);
      assert [s[0]] + s[1..] == s;
    }
  }

  /** Splitting a separator-free piece followed by `sep` and more text. */
  lemma {:induction false} SplitCons(a: string, sep: char, rest: string)
    requires sep !in a
    ensures Split(a + [sep] + rest, sep) == [a] + Split(rest, sep)
  {
    if |a| == 0 {
      assert a + [sep] + rest == [sep] + rest;
      assert ([sep] + rest)[1..] == rest;
    } else {
      var s := a + [sep] + rest;
      SplitCons(a[1..], sep, rest);
      assert s[0] == a[0] && s[0] != sep;
      assert s[1..] == a[1..] + [sep] + rest;
      var tail := Split(s[1..], sep);
      assert tail == [a[1..]] + Split(rest, sep);
      assert Split(s, sep) == [[s[0]] + tail[0]] + tail[1..];
      assert [a[0]] + a[1..] == a;
    }
  }

  /** Splitting undoes joining when no piece contains the separator. */
  lemma {:induction false} SplitJoin(pieces: seq<string>, sep: char)
    requires |pieces| >= 1
    requires forall i :: 0 <= i < |pieces| ==> sep !in pieces[i]
    ensures Split(Join(pieces, sep), sep) == pieces
  {
    if |pieces| == 1 {
      SplitNoSeparator(pieces[0], sep);
    } else {
      SplitJoin(pieces[1..], sep);
      SplitCons(pieces[0], sep, Join(pieces[1..], sep));
      assert [pieces[0]] + pieces[1..] == pieces;
    }
  }

  /** `str::trim_start`: the suffix left after dropping leading whitespace. */
  function TrimStart(s: string): (t: string)
    ensures |t| <= |s| && t == s[|s| - |t|..]
    ensures forall i :: 0 <= i < |s| - |t| ==> IsWhitespace(s[i])
    ensures |t| > 0 ==> !IsWhitespace(t[0])
  {
    if |s| > 0 && IsWhitespace(s[0]) then TrimStart(s[1..]) else s
  }

  /** `str::trim_end`: the prefix left after dropping trailing whitespace. */
  function TrimEnd(s: string): (t: string)
    ensures |t| <= |s| && t == s[..|t|]
    ensures forall i :: |t| <= i < |s| ==> IsWhitespace(s[i])
    ensures |t| > 0 ==> !IsWhitespace(t[|t| - 1])
  {
    if |s| > 0 && IsWhitespace(s[|s| - 1]) then TrimEnd(s[..|s| - 1]) else s
  }

  /** `str::trim`: whitespace removed from both ends. */
  function Trim(s: string): (t: string)
    ensures |t| > 0 ==> !IsWhitespace(t[0]) && !IsWhitespace(t[|t| - 1])
  {
    TrimEnd(TrimStart(s))
  }

  /** Trimming the start keeps a suffix after leading whitespace. */
  lemma TrimStartSuffix(s: string)
    ensures var i := |s| - |TrimStart(s)|;
      TrimStart(s) == s[i..] && forall k :: 0 <= k < i ==> IsWhitespace(s[k])
  {
  }

  /** Trimming the end of a suffix keeps a slice of the whole string. */
  lemma TrimEndOfSuffix(s: string, i: nat)
    requires i <= |s|
    ensures var t := TrimEnd(s[i..]);
      && i + |t| <= |s| && t == s[i..i + |t|]
      && (forall k :: i + |t| <= k < |s| ==> IsWhitespace(s[k]))
  {
    var t1 := s[i..];
    var t := TrimEnd(t1);
    assert t == t1[..|t|] == s[i..i + |t|];
    forall k | i + |t| <= k < |s|
      ensures IsWhitespace(s[k])
    {
      assert s[k] == t1[k - i];
    }
  }

  /** The trimmed string is a slice of the input, and everything dropped
      on either side of it is whitespace. */
  lemma TrimSlice(s: string)
    ensures var t, i := Trim(s), |s| - |TrimStart(s)|;
      && i + |t| <= |s| && t == s[i..i + |t|]
      && (forall k :: 0 <= k < i ==> IsWhitespace(s[k]))
      && (forall k :: i + |t| <= k < |s| ==> IsWhitespace(s[k]))
  {
    TrimStartSuffix(s);
    var i := |s| - |TrimStart(s)|;
    assert Trim(s) == TrimEnd(s[i..]);
    TrimEndOfSuffix(s, i);
  }



  /** A string whose ends are not whitespace is its own trim. */
  lemma TrimUntouched(s: string)
    requires |s| > 0 ==> !IsWhitespace(s[0]) && !IsWhitespace(s[|s| - 1])
    ensures Trim(s) == s
  {
  }

  predicate IsDigit(c: char)
  {
    '0' <= c <= '9'
  }

  predicate AllDigits(s: string)
  {
    forall i :: 0 <= i < |s| ==> IsDigit(s[i])
  }

  /** The number written by a string of decimal digits. */
  function DigitsValue(s: string): nat
    requires AllDigits(s)
  {
    if |s| == 0 then 0
    else DigitsValue(s[..|s| - 1]) * 10 + (s[|s| - 1] as int - '0' as int)
  }

  /** One more than the largest `usize` of a 64-bit target. */
  const UsizeLimit: nat := 0x1_0000_0000_0000_0000

  /** `s.parse::<usize>().ok()`: an optional `+` followed by at least one
      decimal digit, and a value that fits in 64 bits. */
  function ParseUsize(s: string): (r: Option<nat>)
    ensures r.Some? ==> r.value < UsizeLimit
    ensures s == "" || s == "+" ==> r == None
    ensures |s| > 0 && !IsDigit(s[0]) && s[0] != '+' ==> r == None
  {
    if |s| == 0 then None
    else
      var digits := if s[0] == '+' then s[1..] else s;
      if |digits| == 0 || !AllDigits(digits) then None
      else if DigitsValue(digits) < UsizeLimit then Some(DigitsValue(digits))
      else None
  }

  /** The decimal digits of `n`, as `usize`'s `Display` writes them. */
  function Decimal(n: nat): (s: string)
    ensures |s| > 0 && AllDigits(s)
  {
    if n < 10 then [('0' as int + n) as char]
    else Decimal(n / 10) + [('0' as int + n % 10) as char]
  }

  /** Reading back the decimal digits of `n` gives `n`. */
  lemma {:induction false} DecimalValue(n: nat)
    ensures DigitsValue(Decimal(n)) == n
  {
    if n >= 10 {
      DecimalValue(n / 10);
      var s := Decimal(n);
      assert s[..|s| - 1] == Decimal(n / 10);
    }
  }

  /** Parsing the decimal form of every `usize` gives it back. */
  lemma ParseDecimal(n: nat)
    requires n < UsizeLimit
    ensures ParseUsize(Decimal(n)) == Some(n)
  {
    DecimalValue(n);
  }
}
