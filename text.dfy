/** The string operations of the JDK that the compilers rely on: joining, splitting,
    substring search, `String.trim`, `replaceAll` of one character, and decimal
    conversion (`Integer.toString`, `Integer.parseInt`). Strings are `seq<char>`. */
module Text {
  import opened Wrappers
  import opened Seqs

  /** `String.join(sep, parts)` and `Collectors.joining(sep)`: the parts in order with `sep`
      between neighbours and nothing around them. */
  function Join(parts: seq<string>, sep: string): string
  {
    if |parts| == 0 then ""
    else if |parts| == 1 then parts[0]
    else parts[0] + sep + Join(parts[1..], sep)
  }

  /** The pieces of `s` between occurrences of `c` (empty pieces kept, so "" has one piece). */
  function Split(s: string, c: char): (r: seq<string>)
    ensures |r| > 0
    ensures forall k :: 0 <= k < |r| ==> c !in r[k]
  {
    if |s| == 0 then [""]
    else if s[0] == c then [""] + Split(s[1..], c)
    else
      var rest := Split(s[1..], c);
      [[s[0]] + rest[0]] + rest[1..]
  }

  /** Joining the pieces of a split with the separator gives the string back. */
  lemma {:induction false} JoinSplit(s: string, c: char)
    ensures Join(Split(s, c), [c]) == s
  {
    if |s| == 0 {
    } else if s[0] == c {
      JoinSplit(s[1..], c);
      var rest := Split(s[1..], c);
      assert Split(s, c) == [""] + rest;
      assert Join([""] + rest, [c]) == "" + [c] + Join(rest, [c]);
    } else {
      JoinSplit(s[1..], c);
      var rest := Split(s[1..], c);
      assert Split(s, c) == [[s[0]] + rest[0]] + rest[1..];
      JoinGlued(s[0], rest, [c]);
      assert s == [s[0]] + s[1..];
    }
  }

  /** Gluing a character to the first part glues it to the front of the join. */
  lemma {:induction false} JoinGlued(h: char, parts: seq<string>, sep: string)
    requires |parts| > 0
    ensures Join([[h] + parts[0]] + parts[1..], sep) == [h] + Join(parts, sep)
  {
    var glued := [[h] + parts[0]] + parts[1..];
    if |parts| > 1 {
      assert glued[1..] == parts[1..];
      AppendAssoc([h] + parts[0], sep, Join(parts[1..], sep));
      AppendAssoc([h], parts[0], sep + Join(parts[1..], sep));
      AppendAssoc(parts[0], sep, Join(parts[1..], sep));
    }
  }

  lemma {:induction false} SplitNoSeparator(s: string, c: char)
    requires c !in s
    ensures Split(s, c) == [s]
  {
    if |s| > 0 {
      SplitNoSeparator(s[1..], c);
      assert [s[0]] + s[1..] == s;
    }
  }

  lemma {:induction false} SplitAtSeparator(x: string, c: char, rest: string)
    requires c !in x
    ensures Split(x + [c] + rest, c) == [x] + Split(rest, c)
  {
    if |x| == 0 {
      assert x + [c] + rest == [c] + rest;
      assert ([c] + rest)[1..] == rest;
    } else {
      SplitAtSeparator(x[1..], c, rest);
      assert (x + [c] + rest)[1..] == x[1..] + [c] + rest;
      assert [x[0]] + x[1..] == x;
    }
  }

  /** Splitting a string that starts with an ordinary character glues it to the first piece. */
  lemma {:induction false} SplitCons(ch: char, s: string, c: char)
    requires ch != c
    ensures Split([ch] + s, c) == [[ch] + Split(s, c)[0]] + Split(s, c)[1..]
  {
    assert ([ch] + s)[1..] == s;
  }

  /** Splitting a string that starts with the separator begins with an empty piece. */
  lemma {:induction false} SplitSep(s: string, c: char)
    ensures Split([c] + s, c) == [""] + Split(s, c)
  {
    assert ([c] + s)[1..] == s;
  }

  lemma {:induction false} SplitConcatSep(x': string, c: char, y: string)
    requires Split(x' + [c] + y, c) == Split(x', c) + Split(y, c)
    ensures Split([c] + x' + [c] + y, c) == Split([c] + x', c) + Split(y, c)
  {
    var whole := x' + [c] + y;
    assert [c] + x' + [c] + y == [c] + whole;
    SplitSep(whole, c);
    SplitSep(x', c);
    AppendAssoc([""], Split(x', c), Split(y, c));
  }


  /** Gluing `h` to the first of the pieces `left + right`, when `left` has one. */
  lemma {:induction false} GlueFirst(h: string, left: seq<string>, right: seq<string>)
    requires |left| > 0
    ensures [h + (left + right)[0]] + (left + right)[1..] == [h + left[0]] + left[1..] + right
  {
    assert (left + right)[0] == left[0];
    assert (left + right)[1..] == left[1..] + right;
  }

  lemma {:induction false} SplitConcatCons(ch: char, x': string, c: char, y: string)
    requires ch != c
    requires Split(x' + [c] + y, c) == Split(x', c) + Split(y, c)
    ensures Split([ch] + x' + [c] + y, c) == Split([ch] + x', c) + Split(y, c)
  {
    var whole := x' + [c] + y;
    assert [ch] + x' + [c] + y == [ch] + whole;
    SplitCons(ch, whole, c);
    SplitCons(ch, x', c);
    GlueFirst([ch], Split(x', c), Split(y, c));
  }

  /** One occurrence of the separator divides the pieces of what is left of it from the pieces
      of what is right of it. */
  lemma {:induction false} SplitConcat(x: string, c: char, y: string)
    ensures Split(x + [c] + y, c) == Split(x, c) + Split(y, c)
  {
    if |x| == 0 {
      assert x + [c] + y == [c] + y;
      SplitSep(y, c);
    } else {
      var x' := x[1..];
      SplitConcat(x', c, y);
      assert x == [x[0]] + x';
      if x[0] == c {
        SplitConcatSep(x', c, y);
      } else {
        SplitConcatCons(x[0], x', c, y);
      }
    }
  }

  /** Splitting a join of separator-free pieces gives the pieces back. */
  lemma {:induction false} SplitJoin(parts: seq<string>, c: char)
    requires |parts| > 0
    requires forall k :: 0 <= k < |parts| ==> c !in parts[k]
    ensures Split(Join(parts, [c]), c) == parts
  {
    if |parts| == 1 {
      SplitNoSeparator(parts[0], c);
    } else {
      SplitJoin(parts[1..], c);
      SplitAtSeparator(parts[0], c, Join(parts[1..], [c]));
      assert [parts[0]] + parts[1..] == parts;
    }
  }

  /** Appending one part to a non-empty join. */
  lemma {:induction false} JoinSnoc(parts: seq<string>, x: string, sep: string)
    requires |parts| > 0
    ensures Join(parts + [x], sep) == Join(parts, sep) + sep + x
  {
    if |parts| > 1 {
      JoinSnoc(parts[1..], x, sep);
      assert (parts + [x])[1..] == parts[1..] + [x];
    }
  }

  /** `s.contains(t)`: `t` occurs in `s` as a contiguous piece. */
  predicate Contains(s: string, t: string)
    decreases |s|
  {
    t <= s || (|s| > 0 && Contains(s[1..], t))
  }

  lemma {:induction false} ContainsAt(s: string, t: string, i: nat)
    requires i + |t| <= |s| && s[i..i + |t|] == t
    ensures Contains(s, t)
    decreases i
  {
    if i > 0 {
      assert s[1..][i - 1..i - 1 + |t|] == t;
      ContainsAt(s[1..], t, i - 1);
    }
  }

  /** Characters `String.trim` removes: every code point up to and including the space. */
  predicate IsTrimmed(ch: char) { ch <= ' ' }

  function TrimStart(s: string): (r: string)
    ensures |r| <= |s| && r == s[|s| - |r|..]
    ensures r != "" ==> !IsTrimmed(r[0])
    ensures forall k :: 0 <= k < |s| - |r| ==> IsTrimmed(s[k])
  {
    if |s| > 0 && IsTrimmed(s[0]) then TrimStart(s[1..]) else s
  }

  function TrimEnd(s: string): (r: string)
    ensures |r| <= |s| && r == s[..|r|]
    ensures r != "" ==> !IsTrimmed(r[|r| - 1])
    ensures forall k :: |r| <= k < |s| ==> IsTrimmed(s[k])
  {
    if |s| > 0 && IsTrimmed(s[|s| - 1]) then TrimEnd(s[..|s| - 1]) else s
  }

  /** `String.trim()`: `s` without its leading and trailing control characters and spaces. */
  function Trim(s: string): (r: string)
    ensures r == "" || (!IsTrimmed(r[0]) && !IsTrimmed(r[|r| - 1]))
  {
    TrimEnd(TrimStart(s))
  }

  /** What `trim` keeps: a contiguous middle piece of `s`, with only characters at or below
      the space before and after it (with the first ensures of `Trim`, the longest such piece). */
  lemma {:induction false} TrimIsMiddle(s: string)
    ensures exists a :: (0 <= a <= |s| && Trim(s) <= s[a..] &&
                         (forall k :: 0 <= k < a ==> IsTrimmed(s[k])) &&
                         (forall k :: a + |Trim(s)| <= k < |s| ==> IsTrimmed(s[k])))
  {
    var t := TrimStart(s);
    var a := |s| - |t|;
    var r := TrimEnd(t);
    assert t == s[a..] && r <= s[a..];
    forall k | a + |r| <= k < |s| ensures IsTrimmed(s[k]) {
      assert s[k] == t[k - a];
    }
  }

  /** `s.replaceAll(c, "")` for a pattern that is a single ordinary character. */
  function RemoveChar(s: string, c: char): (r: string)
    ensures c !in r
    ensures |r| <= |s|
    ensures c !in s ==> r == s
  {
    if |s| == 0 then ""
    else (if s[0] == c then "" else [s[0]]) + RemoveChar(s[1..], c)
  }

  /** Every character other than `c` is kept, as often as it occurs (`RemoveCharAppend` adds
      that the order is kept too). */
  lemma {:induction false} RemoveCharContents(s: string, c: char)
    ensures multiset(RemoveChar(s, c)) == multiset(s)[c := 0]
  {
    if |s| > 0 {
      RemoveCharContents(s[1..], c);
      assert s == [s[0]] + s[1..];
    }
  }


  lemma {:induction false} RemoveCharAppend(a: string, b: string, c: char)
    ensures RemoveChar(a + b, c) == RemoveChar(a, c) + RemoveChar(b, c)
  {
    if |a| > 0 {
      var head := if a[0] == c then "" else [a[0]];
      RemoveCharAppend(a[1..], b, c);
      assert (a + b)[0] == a[0];
      assert (a + b)[1..] == a[1..] + b;
      assert RemoveChar(a + b, c) == head + (RemoveChar(a[1..], c) + RemoveChar(b, c));
      assert RemoveChar(a, c) == head + RemoveChar(a[1..], c);
      AppendAssoc(head, RemoveChar(a[1..], c), RemoveChar(b, c));
    } else {
      assert a + b == b;
    }
  }

  /** The part of `s` before the first `c` (all of `s` when there is none): element 0 of
      `s.split(c)` whenever that element exists. */
  function TakeUntil(s: string, c: char): (r: string)
    ensures r <= s && c !in r
    ensures |r| < |s| ==> s[|r|] == c
  {
    if |s| == 0 || s[0] == c then "" else [s[0]] + TakeUntil(s[1..], c)
  }

  predicate IsDigit(ch: char) { '0' <= ch <= '9' }

  predicate AllDigits(s: string) { forall k :: 0 <= k < |s| ==> IsDigit(s[k]) }

  function DigitChar(d: nat): (ch: char)
    requires d < 10
    ensures IsDigit(ch)
  {
    "0123456789"[d]
  }

  function DigitValue(ch: char): (d: nat)
    requires IsDigit(ch)
    ensures d < 10 && DigitChar(d) == ch
  {
    (ch as int - '0' as int) as nat
  }

  /** `Long.toString(n)` for a non-negative number: shortest decimal form. */
  function NatToDecimal(n: nat): (r: string)
    ensures |r| > 0 && AllDigits(r)
    ensures r[0] == '0' ==> n == 0
  {
    if n < 10 then [DigitChar(n)] else NatToDecimal(n / 10) + [DigitChar(n % 10)]
  }

  /** The number a string of decimal digits denotes. */
  function DecimalValue(s: string): nat
    requires AllDigits(s)
  {
    if |s| == 0 then 0 else DecimalValue(s[..|s| - 1]) * 10 + DigitValue(s[|s| - 1])
  }

  lemma {:induction false} DecimalRoundTrip(n: nat)
    ensures DecimalValue(NatToDecimal(n)) == n
  {
    var r := NatToDecimal(n);
    if n >= 10 {
      DecimalRoundTrip(n / 10);
      assert r[..|r| - 1] == NatToDecimal(n / 10);
    }
  }

  /** `Integer.toString(i)` (and string concatenation of an `Integer`). */
  function IntToDecimal(i: int): (r: string)
    ensures |r| > 0
  {
    if i < 0 then "-" + NatToDecimal(-i) else NatToDecimal(i)
  }

  const MinInt32: int := -0x8000_0000
  const MaxInt32: int := 0x7FFF_FFFF

  /** The length of the optional leading sign of a number. */
  function SignLength(s: string): (n: nat)
    ensures n <= |s|
  {
    if |s| > 0 && (s[0] == '-' || s[0] == '+') then 1 else 0
  }

  /** The syntax `Integer.parseInt` accepts: an optional sign, then at least one digit. */
  predicate IsIntegerText(s: string)
  {
    SignLength(s) < |s| && AllDigits(s[SignLength(s)..])
  }

  /** The number such a text denotes, negated after a minus sign. */
  function SignedValue(s: string): int
    requires IsIntegerText(s)
  {
    var magnitude: int := DecimalValue(s[SignLength(s)..]);
    if s[0] == '-' then -magnitude else magnitude
  }

  /** `Integer.parseInt(s)`: an optional sign, then at least one decimal digit, with the value
      inside the 32-bit range; `None` where the JDK throws `NumberFormatException`: for the
      empty string, a lone sign, any other character than a digit after the sign, and a value
      outside the range. */
  function ParseInt(s: string): (r: Option<int>)
    ensures r.Some? ==> MinInt32 <= r.value <= MaxInt32
    ensures |s| == 0 ==> r.None?
    ensures s == "-" || s == "+" ==> r.None?
    ensures (exists k :: SignLength(s) <= k < |s| && !IsDigit(s[k])) ==> r.None?
    ensures IsIntegerText(s) ==> (r.Some? <==> MinInt32 <= SignedValue(s) <= MaxInt32)
    ensures r.Some? ==> IsIntegerText(s) && r.value == SignedValue(s)
  {
    if !IsIntegerText(s) then None
    else
      var v := SignedValue(s);
      if MinInt32 <= v <= MaxInt32 then Some(v) else None
  }

  /** Inputs that make `Integer.parseInt` throw: no digits, a second sign, a blank. */
  lemma {:induction false} ParseIntRejects()
    ensures ParseInt("") == None && ParseInt("-") == None && ParseInt("+") == None
    ensures ParseInt("1a") == None && ParseInt("-+1") == None && ParseInt(" 1") == None
  {
    assert "1a"[1] == 'a' && "-+1"[1] == '+' && " 1"[0] == ' ';
  }

  /** A plus sign is accepted, and a magnitude beyond the 32-bit range is rejected with
      either sign (the range is asymmetric: `-2147483648` parses, `2147483648` does not). */
  lemma {:induction false} ParseIntRange(n: nat)
    ensures ParseInt(NatToDecimal(n)) == (if n <= MaxInt32 then Some(n) else None)
    ensures ParseInt("+" + NatToDecimal(n)) == (if n <= MaxInt32 then Some(n) else None)
    ensures ParseInt("-" + NatToDecimal(n)) == (if n <= -MinInt32 then Some(-(n as int)) else None)
  {
    var d := NatToDecimal(n);
    DecimalRoundTrip(n);
    assert IsDigit(d[0]) && d[0..] == d;
    SignedDecimal(d, '+');
    SignedDecimal(d, '-');
  }

  lemma {:induction false} SignedDecimal(d: string, sign: char)
    requires |d| > 0 && AllDigits(d) && (sign == '+' || sign == '-')
    ensures IsIntegerText([sign] + d)
    ensures SignedValue([sign] + d) == if sign == '-' then -(DecimalValue(d) as int) else DecimalValue(d)
  {
    assert ([sign] + d)[1..] == d;
  }

  /** Parsing what `Integer.toString` printed gives the number back. */
  lemma {:induction false} ParseIntDecimal(i: int)
    requires MinInt32 <= i <= MaxInt32
    ensures ParseInt(IntToDecimal(i)) == Some(i)
  {
    if i < 0 {
      ParseIntRange(-i);
    } else {
      ParseIntRange(i);
    }
  }
}
