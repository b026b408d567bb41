/** String helpers with JavaScript semantics: `String.prototype.split` on one character, and decimal digits. */
module Text {
  import opened Wrappers

  /** `s.split(sep)` for a one-character separator: the fields between separators, at least one. */
  function Split(s: string, sep: char): (fields: seq<string>)
    ensures |fields| >= 1
    ensures forall i :: 0 <= i < |fields| ==> sep !in fields[i]
  {
    if s == [] then [""]
    else
      var rest := Split(s[1..], sep);
      if s[0] == sep then [""] + rest
      else [[s[0]] + rest[0]] + rest[1..]
  }

  /** `fields.join(sep)`. */
  function Join(fields: seq<string>, sep: char): string
    requires |fields| >= 1
  {
    if |fields| == 1 then fields[0] else fields[0] + [sep] + Join(fields[1..], sep)
  }

  /** A joined list begins with its first field. */
  lemma JoinHead(fields: seq<string>, sep: char)
    requires |fields| >= 1
    ensures fields[0] <= Join(fields, sep)
  {
  }

  /** `const [a, b] = s.split(sep)`: the first field and, when the separator occurs, the second.
      The two fields are read off the front of `s`, with one separator between them. */
  function FirstTwoFields(s: string, sep: char): (r: (string, Option<string>))
    ensures sep !in r.0 && (r.1.Some? ==> sep !in r.1.value)
    ensures r.1.None? <==> sep !in s
    ensures r.1.None? ==> r.0 == s
    ensures r.1.Some? ==> r.0 + [sep] + r.1.value <= s
    ensures r.1.Some? ==> var n := |r.0| + 1 + |r.1.value|; n == |s| || s[n] == sep
  {
    var fields := Split(s, sep);
    JoinSplit(s, sep);
    if |fields| >= 2 then
      var rest := Join(fields[1..], sep);
      JoinHead(fields[1..], sep);
      assert s == fields[0] + [sep] + rest;
      assert s[|fields[0]|] == sep;
      assert |fields| == 2 ==> rest == fields[1];
      assert |fields| > 2 ==> rest == fields[1] + [sep] + Join(fields[2..], sep) by {
        assert fields[1..][1..] == fields[2..];
      }
      (fields[0], Some(fields[1]))
    else
      (fields[0], None)
  }

  /** Splitting loses nothing: joining the fields back gives the original string. */
  lemma {:induction false} JoinSplit(s: string, sep: char)
    ensures Join(Split(s, sep), sep) == s
  {
    if s != [] {
      JoinSplit(s[1..], sep);
      var rest := Split(s[1..], sep);
      if s[0] != sep {
        if |rest| == 1 {
          assert s == [s[0]] + s[1..];
        } else {
          assert Split(s, sep)[1..] == rest[1..];
          assert s == [s[0]] + s[1..];
        }
      }
    }
  }

  /** A field free of the separator, followed by the separator, is split off as the first field. */
  lemma {:induction false} SplitPrefix(a: string, sep: char, b: string)
    requires sep !in a
    ensures Split(a + [sep] + b, sep) == [a] + Split(b, sep)
  {
    if a == [] {
      assert [] + [sep] + b == [sep] + b;
      assert ([sep] + b)[1..] == b;
    } else {
      assert (a + [sep] + b)[1..] == a[1..] + [sep] + b;
      SplitPrefix(a[1..], sep, b);
      assert [a[0]] + a[1..] == a;
    }
  }

  /** Text free of the separator is a single field. */
  lemma {:induction false} SplitNoSeparator(a: string, sep: char)
    requires sep !in a
    ensures Split(a, sep) == [a]
  {
    if a != [] {
      SplitNoSeparator(a[1..], sep);
      assert [a[0]] + a[1..] == a;
    }
  }

  /** The character for a decimal digit. */
  function DigitChar(d: int): (c: char)
    requires 0 <= d <= 9
    ensures '0' <= c <= '9'
  {
    (48 + d) as char
  }

  predicate IsDigit(c: char)
  {
    '0' <= c <= '9'
  }

  /** The value of a decimal digit character. */
  function DigitValue(c: char): (d: int)
    requires IsDigit(c)
    ensures 0 <= d <= 9
  {
    c as int - 48
  }

  /** `n` in two digits with a leading zero (date-fns `MM` and `dd`). */
  function Pad2(n: int): (s: string)
    requires 0 <= n <= 99
    ensures |s| == 2 && IsDigit(s[0]) && IsDigit(s[1])
    ensures 10 * DigitValue(s[0]) + DigitValue(s[1]) == n
  {
    [DigitChar(n / 10), DigitChar(n % 10)]
  }

  /** `n` in four digits with leading zeros (date-fns `yyyy` for years 0 to 9999). */
  function Pad4(n: int): (s: string)
    requires 0 <= n <= 9999
    ensures |s| == 4 && IsDigit(s[0]) && IsDigit(s[1]) && IsDigit(s[2]) && IsDigit(s[3])
    ensures 1000 * DigitValue(s[0]) + 100 * DigitValue(s[1]) + 10 * DigitValue(s[2]) + DigitValue(s[3]) == n
  {
    var hi := n / 100;
    var lo := n % 100;
    assert n == 100 * hi + lo;
    Pad2(hi) + Pad2(lo)
  }

  /** Two digits are fixed by their value: rendering the value gives the same text back. */
  lemma Pad2OfDigits(s: string)
    requires |s| == 2 && IsDigit(s[0]) && IsDigit(s[1])
    ensures Pad2(10 * DigitValue(s[0]) + DigitValue(s[1])) == s
  {
    var n := 10 * DigitValue(s[0]) + DigitValue(s[1]);
    assert n / 10 == DigitValue(s[0]) && n % 10 == DigitValue(s[1]);
  }

  /** Four digits are fixed by their value. */
  lemma Pad4OfDigits(s: string)
    requires |s| == 4 && IsDigit(s[0]) && IsDigit(s[1]) && IsDigit(s[2]) && IsDigit(s[3])
    ensures Pad4(1000 * DigitValue(s[0]) + 100 * DigitValue(s[1]) + 10 * DigitValue(s[2]) + DigitValue(s[3])) == s
  {
    var hi, lo := 10 * DigitValue(s[0]) + DigitValue(s[1]), 10 * DigitValue(s[2]) + DigitValue(s[3]);
    var n := 100 * hi + lo;
    assert n / 100 == hi && n % 100 == lo;
    Pad2OfDigits(s[..2]);
    Pad2OfDigits(s[2..]);
    assert s == s[..2] + s[2..];
  }

  /** `n` in decimal without padding (date-fns `d`, the day of the month). */
  function Unpadded(n: int): (s: string)
    requires 1 <= n <= 99
    ensures 1 <= |s| <= 2 && IsDigit(s[0]) && s[0] != '0'
    ensures |s| == 1 ==> DigitValue(s[0]) == n
    ensures |s| == 2 ==> IsDigit(s[1]) && 10 * DigitValue(s[0]) + DigitValue(s[1]) == n
  {
    if n < 10 then [DigitChar(n)] else Pad2(n)
  }
}
