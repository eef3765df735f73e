/**
 * The pure string pieces of BranchCommits' output: the 7-character display id
 * (`%.7s`), the decimal rendering of a count (`%d`), the "commit"/"commits" choice,
 * and the compact `<id>+<count1>+<count2>` line, with the parsers that read them back.
 */
module Format {
  import opened Wrappers

  /** Commit ids are shown with at most this many characters. */
  const DisplayIdLength: nat := 7

  /** The display form of an id: its first 7 characters, or the whole id if it is shorter. */
  function Abbrev(id: string): (r: string)
    ensures |r| == if |id| < DisplayIdLength then |id| else DisplayIdLength
    ensures r == id[..|r|]
  {
    if |id| <= DisplayIdLength then id else id[..DisplayIdLength]
  }

  /** The plural suffix after "commit": none for a count of exactly 1, "s" otherwise. */
  function Plural(count: int): (r: string)
    ensures r == "" <==> count == 1
    ensures r == "s" <==> count != 1
  {
    if count == 1 then "" else "s"
  }

  predicate IsDigit(c: char)
  {
    '0' <= c <= '9'
  }

  predicate AllDigits(s: string)
  {
    forall i :: 0 <= i < |s| ==> IsDigit(s[i])
  }

  /** The decimal digit character for d. */
  function Digit(d: nat): (c: char)
    requires d < 10
    ensures IsDigit(c) && c as int - '0' as int == d
  {
    (('0' as int) + d) as char
  }

  /** The decimal rendering of a non-negative count, as `%d` prints it: digits only, no leading zero. */
  function Decimal(n: nat): (s: string)
    ensures s != [] && AllDigits(s)
    ensures s[0] == '0' ==> s == "0"
    decreases n
  {
    if n < 10 then [Digit(n)] else Decimal(n / 10) + [Digit(n % 10)]
  }

  /** The number a string of decimal digits denotes. */
  function Value(s: string): nat
    requires AllDigits(s)
  {
    if s == [] then 0 else 10 * Value(s[..|s| - 1]) + (s[|s| - 1] as int - '0' as int)
  }

  /** Reading a rendered count back gives the count. */
  lemma {:induction false} DecimalRoundTrip(n: nat)
    ensures Value(Decimal(n)) == n
    decreases n
  {
    if n >= 10 {
      DecimalRoundTrip(n / 10);
      var s := Decimal(n);
      assert s[..|s| - 1] == Decimal(n / 10);
    }
  }

  /** The index of the first `c` in `s`, or `|s|` when `s` has none. */
  function IndexOf(s: string, c: char): (k: nat)
    ensures k <= |s|
    ensures k < |s| ==> s[k] == c
    ensures forall j :: 0 <= j < k ==> s[j] != c
  {
    if s == [] then 0 else if s[0] == c then 0 else 1 + IndexOf(s[1..], c)
  }

  /** The longest prefix of `s` made of decimal digits. */
  function LeadingDigits(s: string): (d: string)
    ensures AllDigits(d) && |d| <= |s| && d == s[..|d|]
    ensures |d| < |s| ==> !IsDigit(s[|d|])
  {
    if s == [] || !IsDigit(s[0]) then [] else [s[0]] + LeadingDigits(s[1..])
  }

  /** The number at the start of a line. */
  function LeadingCount(s: string): nat
  {
    Value(LeadingDigits(s))
  }

  /** The digit prefix of a digit string followed by a non-digit is that digit string. */
  lemma {:induction false} LeadingDigitsOf(d: string, rest: string)
    requires AllDigits(d)
    requires rest != [] && !IsDigit(rest[0])
    ensures LeadingDigits(d + rest) == d
  {
    if d != [] {
      assert (d + rest)[1..] == d[1..] + rest;
      LeadingDigitsOf(d[1..], rest);
    } else {
      assert d + rest == rest;
    }
  }

  /** A rendered count followed by a non-digit reads back as that count. */
  lemma {:induction false} LeadingCountOf(n: nat, rest: string)
    requires rest != [] && !IsDigit(rest[0])
    ensures LeadingCount(Decimal(n) + rest) == n
  {
    LeadingDigitsOf(Decimal(n), rest);
    DecimalRoundTrip(n);
  }

  /** A count followed by the word "commit" or "commits" (as `%d commit%s`) and then `rest`. */
  function CountPhrase(count: nat, rest: string): (r: string)
    ensures |r| == |Decimal(count)| + 7 + |Plural(count)| + |rest|
    ensures r[..|Decimal(count)|] == Decimal(count)
    ensures r[|Decimal(count)|..|Decimal(count)| + 7 + |Plural(count)|] == " commit" + Plural(count)
    ensures r[|r| - |rest|..] == rest
  {
    Decimal(count) + " commit" + Plural(count) + rest
  }

  /**
   * A count phrase whose continuation starts with a space reads back: it starts with the
   * count, then " commit", then an 's' exactly when the count is not 1.
   */
  lemma {:induction false} CountPhraseReadsBack(count: nat, rest: string)
    requires rest != [] && rest[0] == ' '
    ensures var line, k := CountPhrase(count, rest), |Decimal(count)|;
            && |line| > k + 7
            && LeadingCount(line) == count
            && line[k..k + 7] == " commit"
            && (line[k + 7] == 's' <==> count != 1)
  {
    var d, w, p := Decimal(count), " commit", Plural(count);
    var line := CountPhrase(count, rest);
    assert line == d + (w + (p + rest));
    Infix(d, w, p + rest);
    LeadingCountOf(count, w + (p + rest));
    assert line[|d| + 7] == (p + rest)[0];
  }

  /** The middle part of `a + (b + c)` is `b`, and what follows it is `c`. */
  lemma Infix(a: string, b: string, c: string)
    ensures (a + (b + c))[|a|..|a| + |b|] == b
    ensures (a + (b + c))[|a| + |b|..] == c
  {
  }

  /** A slice of `phrase` is the same slice of `indent + phrase`, shifted by the indent. */
  lemma Shifted(indent: string, phrase: string, i: nat, j: nat)
    requires i <= j <= |phrase|
    ensures (indent + phrase)[|indent| + i..|indent| + j] == phrase[i..j]
    ensures j < |phrase| ==> (indent + phrase)[|indent| + j] == phrase[j]
  {
  }

  /** The fields of a compact output line. */
  datatype ShortFields = ShortFields(displayId: string, count1: nat, count2: nat)

  /** The compact output `%.7s+%d+%d`: display id, then the two counts, separated by '+'. */
  function ShortLine(sharedId: string, count1: nat, count2: nat): (r: string)
    ensures var a := Abbrev(sharedId);
            |r| > |a| && r[..|a|] == a && r[|a|] == '+'
    ensures |r| <= DisplayIdLength + |Decimal(count1)| + |Decimal(count2)| + 2
  {
    Abbrev(sharedId) + "+" + Decimal(count1) + "+" + Decimal(count2)
  }

  /** Reads a compact output line back into its fields; None when it is not of that form. */
  function ParseShort(line: string): Option<ShortFields>
  {
    var i := IndexOf(line, '+');
    if i == |line| then None
    else
      var rest := line[i + 1..];
      var j := IndexOf(rest, '+');
      if j == |rest| then None
      else
        var n1, n2 := rest[..j], rest[j + 1..];
        if n1 != [] && n2 != [] && AllDigits(n1) && AllDigits(n2)
        then Some(ShortFields(line[..i], Value(n1), Value(n2)))
        else None
  }

  /** Splitting at the first `c` of `a + [c] + b` gives back `a` and `b` when `a` has no `c`. */
  lemma SplitAtFirst(a: string, c: char, b: string)
    requires c !in a
    ensures IndexOf(a + [c] + b, c) == |a|
    ensures (a + [c] + b)[..|a|] == a && (a + [c] + b)[|a| + 1..] == b
  {
    var s := a + [c] + b;
    assert s[|a|] == c;
  }

  /** The compact line of an id without '+' reads back as its display id and both counts. */
  lemma {:induction false} ShortLineRoundTrip(sharedId: string, count1: nat, count2: nat)
    requires '+' !in sharedId
    ensures ParseShort(ShortLine(sharedId, count1, count2)) == Some(ShortFields(Abbrev(sharedId), count1, count2))
  {
    var a, d1, d2 := Abbrev(sharedId), Decimal(count1), Decimal(count2);
    assert '+' !in a by {
      forall i | 0 <= i < |a| ensures a[i] != '+' {
        assert a[i] == sharedId[i];
      }
    }
    assert '+' !in d1 by {
      forall i | 0 <= i < |d1| ensures d1[i] != '+' {
        assert IsDigit(d1[i]);
      }
    }
    var line := ShortLine(sharedId, count1, count2);
    assert line == a + ['+'] + (d1 + ['+'] + d2);
    SplitAtFirst(a, '+', d1 + ['+'] + d2);
    SplitAtFirst(d1, '+', d2);
    DecimalRoundTrip(count1);
    DecimalRoundTrip(count2);
  }
}
