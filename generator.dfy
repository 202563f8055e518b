/** The deterministic part of the synthetic fallback data: StudentIDs
    "S" + zero-padded i and names "Student_i" for i = 1..N. The random columns
    come from a seeded generator that is passed in as a parameter. */
module Generator {

  import opened Students

  /** The population size the application generates. */
  const NUM_STUDENTS: nat := 1000

  /** The decimal digit character of `d`. */
  function DigitChar(d: nat): (c: char)
    requires d < 10
    ensures '0' <= c <= '9'
  {
    (48 + d) as char
  }

  /** The value of a decimal digit character. */
  function DigitValue(c: char): nat
    requires '0' <= c <= '9'
  {
    (c as int - 48) as nat
  }

  /** Every character is a decimal digit. */
  predicate AllDigits(s: string)
  {
    forall k :: 0 <= k < |s| ==> '0' <= s[k] <= '9'
  }

  /** `str(n)`: the decimal digits of `n`, most significant first, without
      leading zeros. */
  function NatToString(n: nat): (s: string)
    ensures |s| >= 1 && AllDigits(s)
    ensures n > 0 ==> s[0] != '0'
  {
    if n < 10 then [DigitChar(n)]
    else NatToString(n / 10) + [DigitChar(n % 10)]
  }

  /** The number a string of decimal digits denotes. */
  function ParseDigits(s: string): nat
    requires AllDigits(s)
  {
    if s == [] then 0
    else ParseDigits(s[..|s| - 1]) * 10 + DigitValue(s[|s| - 1])
  }

  /** Reading the digits back gives the number: `int(str(n)) == n`. */
  lemma {:induction false} ParseNatToString(n: nat)
    ensures ParseDigits(NatToString(n)) == n
  {
    var s := NatToString(n);
    if n >= 10 {
      ParseNatToString(n / 10);
      assert s[..|s| - 1] == NatToString(n / 10);
    } else {
      assert s[..|s| - 1] == [];
    }
  }

  /** Leading zeros do not change the number a digit string denotes. */
  lemma {:induction false} ParseLeadingZeros(zeros: string, s: string)
    requires forall k :: 0 <= k < |zeros| ==> zeros[k] == '0'
    requires AllDigits(s)
    ensures AllDigits(zeros + s) && ParseDigits(zeros + s) == ParseDigits(s)
  {
    var t := zeros + s;
    assert AllDigits(t) by {
      forall k | 0 <= k < |t|
        ensures '0' <= t[k] <= '9'
      {
        if k >= |zeros| {
          assert t[k] == s[k - |zeros|];
        }
      }
    }
    if s == [] {
      if zeros != [] {
        ParseLeadingZeros(zeros[..|zeros| - 1], []);
        assert t[..|t| - 1] == zeros[..|zeros| - 1] + [];
      }
    } else {
      ParseLeadingZeros(zeros, s[..|s| - 1]);
      assert t[..|t| - 1] == zeros + s[..|s| - 1];
      assert t[|t| - 1] == s[|s| - 1];
    }
  }

  /** `str(n)` is injective. */
  lemma NatToStringInjective(m: nat, n: nat)
    requires NatToString(m) == NatToString(n)
    ensures m == n
  {
    ParseNatToString(m);
    ParseNatToString(n);
  }

  /** `10^k`. */
  function Pow10(k: nat): (p: nat)
    ensures p >= 1
  {
    if k == 0 then 1 else 10 * Pow10(k - 1)
  }

  /** A number below `10^k` has at most `k` digits. */
  lemma {:induction false} NatToStringLength(n: nat, k: nat)
    requires 1 <= k && n < Pow10(k)
    ensures |NatToString(n)| <= k
  {
    if n >= 10 {
      assert k >= 2;
      NatToStringLength(n / 10, k - 1);
    }
  }

  /** `s.zfill(width)` for an unsigned digit string `s`: `s` padded on the
      left with '0' up to `width` characters. */
  function ZFill(s: string, width: nat): (r: string)
    requires AllDigits(s)
    ensures |r| == if |s| >= width then |s| else width
    ensures r[|r| - |s|..] == s
    ensures forall k :: 0 <= k < |r| - |s| ==> r[k] == '0'
  {
    if |s| >= width then s else seq(width - |s|, _ => '0') + s
  }

  /** Zero-padding does not change the number a digit string denotes. */
  lemma ParseZFill(s: string, width: nat)
    requires AllDigits(s)
    ensures AllDigits(ZFill(s, width)) && ParseDigits(ZFill(s, width)) == ParseDigits(s)
  {
    if |s| < width {
      ParseLeadingZeros(seq(width - |s|, _ => '0'), s);
    }
  }

  /** Zero-padding strings without a leading zero loses nothing. */
  lemma ZFillInjective(a: string, b: string, width: nat)
    requires AllDigits(a) && AllDigits(b)
    requires a != [] && b != [] && a[0] != '0' && b[0] != '0'
    requires ZFill(a, width) == ZFill(b, width)
    ensures a == b
  {
  }

  /** The StudentID of the i-th generated student: `f"S{str(i).zfill(4)}"`. */
  function StudentId(i: nat): (id: string)
    ensures |id| >= 5 && id[0] == 'S'
    ensures AllDigits(id[1..]) && ParseDigits(id[1..]) == i
  {
    ParseNatToString(i);
    ParseZFill(NatToString(i), 4);
    assert ("S" + ZFill(NatToString(i), 4))[1..] == ZFill(NatToString(i), 4);
    "S" + ZFill(NatToString(i), 4)
  }

  /** The name of the i-th generated student: `f"Student_{i}"`. */
  function StudentName(i: nat): (name: string)
    ensures |name| >= 9 && name[..8] == "Student_"
    ensures AllDigits(name[8..]) && ParseDigits(name[8..]) == i
  {
    ParseNatToString(i);
    assert ("Student_" + NatToString(i))[8..] == NatToString(i);
    "Student_" + NatToString(i)
  }

  /** Different student numbers get different IDs, since the digits after
      the "S" read back as the number. */
  lemma StudentIdInjective(i: nat, j: nat)
    requires StudentId(i) == StudentId(j)
    ensures i == j
  {
  }

  /** Every ID of a student numbered 1 to 9999 has exactly five characters. */
  lemma StudentIdLength(i: nat)
    requires 1 <= i <= 9999
    ensures |StudentId(i)| == 5
  {
    NatToStringLength(i, 4);
  }

  /** Python's string order: lexicographic by character code. */
  predicate LexLess(a: string, b: string)
  {
    if a == [] then b != []
    else if b == [] then false
    else a[0] < b[0] || (a[0] == b[0] && LexLess(a[1..], b[1..]))
  }

  /** The last `width` decimal digits of `n`, most significant first. */
  function FixedDigits(n: nat, width: nat): (s: string)
    ensures |s| == width
  {
    if width == 0 then [] else FixedDigits(n / 10, width - 1) + [DigitChar(n % 10)]
  }

  /** Zero digits give zero padding. */
  lemma {:induction false} FixedDigitsOfZero(width: nat)
    ensures FixedDigits(0, width) == seq(width, _ => '0')
  {
    if width > 0 {
      FixedDigitsOfZero(width - 1);
    }
  }

  /** Zero-padding `str(n)` to `width` gives the last `width` digits of `n`
      whenever `n` has at most `width` digits. */
  lemma {:induction false} ZFillIsFixedDigits(n: nat, width: nat)
    requires 1 <= width && n < Pow10(width)
    ensures ZFill(NatToString(n), width) == FixedDigits(n, width)
  {
    if n < 10 {
      SingleFixedDigit(n, width);
      var d := DigitChar(n);
      assert NatToString(n) == [d];
      if width == 1 {
        assert seq(0, _ => '0') + [d] == [d];
      }
    } else {
      var head, last := NatToString(n / 10), DigitChar(n % 10);
      TenthBelow(n, width);
      NatToStringLength(n / 10, width - 1);
      ZFillIsFixedDigits(n / 10, width - 1);
      assert NatToString(n) == head + [last];
      ZFillAppend(head, last, width);
      assert FixedDigits(n, width) == FixedDigits(n / 10, width - 1) + [last];
    }
  }

  /** A number of two or more digits below `10^width` has fewer digits left
      after dropping its last one. */
  lemma TenthBelow(n: nat, width: nat)
    requires 10 <= n < Pow10(width)
    ensures width >= 2 && n / 10 < Pow10(width - 1)
  {
    assert width != 0;
    assert Pow10(width) == 10 * Pow10(width - 1);
    assert Pow10(0) == 1;
  }

  /** The fixed-width digits of a one-digit number: zeros, then the digit. */
  lemma SingleFixedDigit(n: nat, width: nat)
    requires n < 10 && 1 <= width
    ensures FixedDigits(n, width) == seq(width - 1, _ => '0') + [DigitChar(n)]
  {
    FixedDigitsOfZero(width - 1);
    assert n / 10 == 0 && n % 10 == n;
  }

  /** Padding a string extended by one digit is padding the string to one
      character less, then extending it. */
  lemma ZFillAppend(s: string, c: char, width: nat)
    requires AllDigits(s) && '0' <= c <= '9'
    requires 1 <= width && |s| < width
    ensures AllDigits(s + [c])
    ensures ZFill(s + [c], width) == ZFill(s, width - 1) + [c]
  {
    var t := s + [c];
    assert AllDigits(t) by {
      forall k | 0 <= k < |t|
        ensures '0' <= t[k] <= '9'
      {
        if k < |s| {
          assert t[k] == s[k];
        }
      }
    }
    var zeros := seq(width - 1 - |s|, _ => '0');
    if |s| + 1 == width {
      assert ZFill(t, width) == t;
      assert ZFill(s, width - 1) == s;
    } else {
      assert ZFill(t, width) == zeros + t;
      assert ZFill(s, width - 1) == zeros + s;
      assert zeros + t == (zeros + s) + [c];
    }
  }

  /** Extending two strings of equal length by one character each keeps
      a strict order between them, or decides it by the new characters. */
  lemma {:induction false} LexLessAppend(a: string, b: string, x: char, y: char)
    requires |a| == |b|
    requires LexLess(a, b) || (a == b && x < y)
    ensures LexLess(a + [x], b + [y])
  {
    if a != [] {
      assert (a + [x])[1..] == a[1..] + [x];
      assert (b + [y])[1..] == b[1..] + [y];
      if a[0] == b[0] {
        LexLessAppend(a[1..], b[1..], x, y);
      }
    }
  }

  /** Fixed-width digit strings sort like the numbers they denote. */
  lemma {:induction false} FixedDigitsOrdered(m: nat, n: nat, width: nat)
    requires m < n < Pow10(width)
    ensures LexLess(FixedDigits(m, width), FixedDigits(n, width))
  {
    assert width >= 1;
    if m / 10 < n / 10 {
      FixedDigitsOrdered(m / 10, n / 10, width - 1);
    } else {
      assert m / 10 == n / 10 && m % 10 < n % 10;
    }
    LexLessAppend(FixedDigits(m / 10, width - 1), FixedDigits(n / 10, width - 1), DigitChar(m % 10), DigitChar(n % 10));
  }

  /** For students numbered below 10000, a smaller number gives a smaller ID. */
  lemma StudentIdOrdered(i: nat, j: nat)
    requires 1 <= i < j <= 9999
    ensures LexLess(StudentId(i), StudentId(j))
  {
    ZFillIsFixedDigits(i, 4);
    ZFillIsFixedDigits(j, 4);
    FixedDigitsOrdered(i, j, 4);
    var a, b := StudentId(i), StudentId(j);
    assert a[1..] == FixedDigits(i, 4) && b[1..] == FixedDigits(j, 4);
  }

  /** The random columns of one generated row, as the seeded generator draws them. */
  datatype Draw = Draw(
    standard: string,
    division: string,
    attendance: real,
    attempts: real,
    test1: real,
    test2: real,
    test3: real,
    feeDelay: real)

  /** `generate_student_data(n)`: `n` full rows; row i (from 0) is student i + 1
      and takes its random columns from `draw(i)`. */
  function GenerateStudentData(n: nat, draw: nat -> Draw): (data: seq<Record>)
    ensures |data| == n
    ensures forall i :: 0 <= i < n ==> data[i].id == StudentId(i + 1) && data[i].name == StudentName(i + 1)
  {
    seq(n, i requires 0 <= i < n =>
      var d := draw(i);
      Record(StudentId(i + 1), StudentName(i + 1), d.standard, d.division,
             d.attendance, d.attempts, d.test1, d.test2, d.test3, d.feeDelay))
  }

  /** The generated IDs are pairwise distinct. */
  lemma GeneratedIdsDistinct(n: nat, draw: nat -> Draw)
    ensures var data := GenerateStudentData(n, draw);
      forall i, j :: 0 <= i < j < n ==> data[i].id != data[j].id
  {
    var data := GenerateStudentData(n, draw);
    forall i, j | 0 <= i < j < n
      ensures data[i].id != data[j].id
    {
      assert data[i].id == StudentId(i + 1) && data[j].id == StudentId(j + 1);
    }
  }

  /** Student numbers 1 to 9999 give IDs of five characters in ascending
      string order. */
  lemma StudentIdsAscending(m: nat)
    requires m <= 9999
    ensures forall i, j :: 1 <= i < j <= m ==> LexLess(StudentId(i), StudentId(j))
    ensures forall i :: 1 <= i <= m ==> |StudentId(i)| == 5
  {
    forall i, j | 1 <= i < j <= m
      ensures LexLess(StudentId(i), StudentId(j))
    {
      StudentIdOrdered(i, j);
    }
    forall i | 1 <= i <= m
      ensures |StudentId(i)| == 5
    {
      StudentIdLength(i);
    }
  }

  /** With at most 9999 students the generated IDs are in ascending string
      order, each five characters long. */
  lemma GeneratedIdsAscending(n: nat, draw: nat -> Draw)
    requires n <= 9999
    ensures var data := GenerateStudentData(n, draw);
      && (forall i, j :: 0 <= i < j < n ==> LexLess(data[i].id, data[j].id))
      && (forall i :: 0 <= i < n ==> |data[i].id| == 5)
  {
    var data := GenerateStudentData(n, draw);
    StudentIdsAscending(n);
    forall i, j | 0 <= i < j < n
      ensures LexLess(data[i].id, data[j].id)
    {
      assert data[i].id == StudentId(i + 1) && data[j].id == StudentId(j + 1);
    }
  }
}
