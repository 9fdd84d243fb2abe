/** The .NET string operations the analytics code relies on: `Split` on one
    character, `Join` with one character, and the decimal form of an `int`. */
module Text {

  /** `s.Split(sep)`: the pieces between separators, empty ones included, so
      there is always one more piece than separators. */
  function Split(s: string, sep: char): (pieces: seq<string>)
    ensures |pieces| >= 1
    decreases |s|
  {
    if |s| == 0 then [""]
    else
      var rest := Split(s[1..], sep);
      if s[0] == sep then [""] + rest else [[s[0]] + rest[0]] + rest[1..]
  }

  /** `string.Join(sep, pieces)`. */
  function Join(pieces: seq<string>, sep: char): string
    decreases |pieces|
  {
    if |pieces| == 0 then ""
    else if |pieces| == 1 then pieces[0]
    else pieces[0] + [sep] + Join(pieces[1..], sep)
  }

  /** No piece contains the separator. */
  predicate Clean(pieces: seq<string>, sep: char) {
    forall i :: 0 <= i < |pieces| ==> sep !in pieces[i]
  }

  /** A separator splits the string in two independent halves. */
  lemma {:induction false} SplitAroundSeparator(a: string, sep: char, b: string)
    ensures Split(a + [sep] + b, sep) == Split(a, sep) + Split(b, sep)
    decreases |a|
  {
    var whole := a + [sep] + b;
    if |a| == 0 {
      assert whole[0] == sep && whole[1..] == b;
    } else {
      assert whole[0] == a[0] && whole[1..] == a[1..] + [sep] + b;
      SplitAroundSeparator(a[1..], sep, b);
    }
  }

  /** A string without the separator is a single piece. */
  lemma {:induction false} SplitWithoutSeparator(s: string, sep: char)
    requires sep !in s
    ensures Split(s, sep) == [s]
    decreases |s|
  {
    if |s| > 0 {
      SplitWithoutSeparator(s[1..], sep);
      assert [s[0]] + s[1..] == s;
    }
  }

  /** No piece of a split contains the separator. */
  lemma {:induction false} SplitPiecesAreClean(s: string, sep: char)
    ensures Clean(Split(s, sep), sep)
    decreases |s|
  {
    if |s| > 0 {
      SplitPiecesAreClean(s[1..], sep);
      var rest := Split(s[1..], sep);
      if s[0] != sep {
        assert sep !in rest[0];
        assert sep !in [s[0]] + rest[0];
      }
    }
  }

  /** Joining the pieces of a split gives the string back. */
  lemma {:induction false} JoinSplit(s: string, sep: char)
    ensures Join(Split(s, sep), sep) == s
    decreases |s|
  {
    if |s| > 0 {
      JoinSplit(s[1..], sep);
      var rest := Split(s[1..], sep);
      if s[0] == sep {
        if |rest| == 1 {
          assert Join([""] + rest, sep) == "" + [sep] + rest[0];
        } else {
          assert ([""] + rest)[1..] == rest;
        }
      } else {
        var first := [[s[0]] + rest[0]] + rest[1..];
        if |rest| == 1 {
          assert first == [[s[0]] + rest[0]];
        } else {
          assert first[1..] == rest[1..];
          assert Join(rest, sep) == rest[0] + [sep] + Join(rest[1..], sep);
        }
      }
      assert s == [s[0]] + s[1..];
    }
  }

  /** Splitting a join of clean pieces gives the pieces back. */
  lemma {:induction false} SplitJoin(pieces: seq<string>, sep: char)
    requires |pieces| >= 1 && Clean(pieces, sep)
    ensures Split(Join(pieces, sep), sep) == pieces
    decreases |pieces|
  {
    if |pieces| == 1 {
      SplitWithoutSeparator(pieces[0], sep);
    } else {
      SplitJoin(pieces[1..], sep);
      SplitWithoutSeparator(pieces[0], sep);
      SplitAroundSeparator(pieces[0], sep, Join(pieces[1..], sep));
      assert [pieces[0]] + pieces[1..] == pieces;
    }
  }

  /** Joining a prefix of the pieces gives a prefix of the whole join. */
  lemma {:induction false} JoinPrefix(pieces: seq<string>, sep: char, k: nat)
    requires 1 <= k <= |pieces|
    ensures Join(pieces[..k], sep) <= Join(pieces, sep)
    decreases k
  {
    if k > 1 {
      JoinPrefix(pieces[1..], sep, k - 1);
      assert pieces[..k][1..] == pieces[1..][..k - 1];
    }
  }

  /** Appending one piece appends the separator and the piece. */
  lemma {:induction false} JoinSnoc(pieces: seq<string>, sep: char, last: string)
    ensures Join(pieces + [last], sep) == if |pieces| == 0 then last else Join(pieces, sep) + [sep] + last
    decreases |pieces|
  {
    if |pieces| > 0 {
      JoinSnoc(pieces[1..], sep, last);
      assert (pieces + [last])[1..] == pieces[1..] + [last];
    }
  }

  /** A join of clean pieces holds exactly one separator per gap. */
  lemma {:induction false} JoinCountsSeparators(pieces: seq<string>, sep: char)
    requires Clean(pieces, sep)
    ensures multiset(Join(pieces, sep))[sep] == if |pieces| == 0 then 0 else |pieces| - 1
    decreases |pieces|
  {
    if |pieces| > 0 {
      assert sep !in multiset(pieces[0]);
      if |pieces| > 1 {
        JoinCountsSeparators(pieces[1..], sep);
      }
    }
  }

  // ---------------------------------------------------------------------
  // Decimal numbers

  function Digit(d: int): (c: char)
    requires 0 <= d < 10
    ensures '0' <= c <= '9' && DigitValue(c) == d
  {
    ('0' as int + d) as char
  }

  function DigitValue(c: char): int {
    c as int - '0' as int
  }

  /** The decimal digits of `n`, most significant first, no leading zero. */
  function NatToString(n: nat): (s: string)
    ensures |s| >= 1 && forall i :: 0 <= i < |s| ==> '0' <= s[i] <= '9'
    ensures s[0] != '0' || n == 0
    decreases n
  {
    if n < 10 then [Digit(n)] else NatToString(n / 10) + [Digit(n % 10)]
  }

  /** `int.ToString()`: a minus sign before the digits of a negative value,
      and no leading zero unless the value is zero. */
  function IntToString(n: int): (s: string)
    ensures |s| >= 1
    ensures s[0] == '-' <==> n < 0
    ensures n < 0 ==> |s| >= 2
    ensures forall i :: (if n < 0 then 1 else 0) <= i < |s| ==> '0' <= s[i] <= '9'
    ensures s[if n < 0 then 1 else 0] != '0' || n == 0
  {
    if n < 0 then "-" + NatToString(-n) else NatToString(n)
  }

  /** Reading decimal digits back. */
  function ParseNat(s: string): int
    decreases |s|
  {
    if |s| == 0 then 0 else ParseNat(s[..|s| - 1]) * 10 + DigitValue(s[|s| - 1])
  }

  function ParseInt(s: string): int {
    if |s| > 0 && s[0] == '-' then -ParseNat(s[1..]) else ParseNat(s)
  }

  lemma {:induction false} ParseNatToString(n: nat)
    ensures ParseNat(NatToString(n)) == n
    decreases n
  {
    if n >= 10 {
      ParseNatToString(n / 10);
      var s := NatToString(n);
      assert s[..|s| - 1] == NatToString(n / 10);
      assert DigitValue(s[|s| - 1]) == n % 10;
      assert (n / 10) * 10 + n % 10 == n;
    }
  }

  /** The decimal form of an `int` reads back as the same value, so distinct
      values print differently. */
  lemma IntToStringRoundTrip(n: int)
    ensures ParseInt(IntToString(n)) == n
  {
    if n < 0 {
      ParseNatToString(-n);
      assert IntToString(n)[1..] == NatToString(-n);
    } else {
      ParseNatToString(n);
    }
  }
}
