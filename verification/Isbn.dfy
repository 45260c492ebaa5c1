/** ISBN check digits: which inputs are accepted, and which typing errors the checksum catches. */
module Isbn {
  import opened TextOrder

  /** White space as Python's str and re understand it. */
  predicate Space(c: char) {
    '\t' <= c <= '\r' || '\U{1c}' <= c <= ' ' || c == '\U{85}' || c == '\U{a0}' || c == '\U{1680}'
    || '\U{2000}' <= c <= '\U{200a}' || c == '\U{2028}' || c == '\U{2029}' || c == '\U{202f}' || c == '\U{205f}'
    || c == '\U{3000}'
  }

  predicate Numeral(c: char) { '0' <= c <= '9' }

  /** Upper case; outside ASCII no letter becomes a digit or an X, so the rest of the alphabet stays as it is. */
  function Upper(c: char): char {
    if 'a' <= c <= 'z' then c - 'a' + 'A' else c
  }

  /** White space and hyphens are dropped, letters put in upper case. */
  function Clean(s: string): string {
    if s == "" then ""
    else if Space(s[0]) || s[0] == '-' then Clean(s[1..])
    else [Upper(s[0])] + Clean(s[1..])
  }

  function Digit(c: char): int {
    if c == 'X' then 10 else c as int - '0' as int
  }

  function Weight10(i: int): int { 10 - i }
  function Weight13(i: int): int { if i % 2 == 0 then 1 else 3 }

  function Sum(weight: int -> int, s: string, i: nat): int
    requires i <= |s|
    decreases |s| - i
  {
    if i == |s| then 0 else weight(i) * Digit(s[i]) + Sum(weight, s, i + 1)
  }

  predicate Shape10(s: string) {
    |s| == 10 && (forall i :: 0 <= i < 9 ==> Numeral(s[i])) && (Numeral(s[9]) || s[9] == 'X')
  }

  predicate Shape13(s: string) {
    && |s| == 13 && (forall i :: 0 <= i < 13 ==> Numeral(s[i]))
    && s[0] == '9' && s[1] == '7' && (s[2] == '8' || s[2] == '9')
  }

  predicate Valid10(s: string) {
    Shape10(s) && Sum(Weight10, s, 0) % 11 == 0
  }

  predicate Valid13(s: string) {
    Shape13(s) && Sum(Weight13, s, 0) % 10 == 0
  }

  predicate Valid(s: string, length: int) {
    (length == 10 && Valid10(s)) || (length == 13 && Valid13(s))
  }

  function Isbn(value: string, length: int): Option<string> {
    var s := Clean(value);
    if length == 10 && Shape10(s) then if Sum(Weight10, s, 0) % 11 == 0 then Some(s) else None
    else if length == 13 && Shape13(s) then if Sum(Weight13, s, 0) % 10 == 0 then Some(s) else None
    else None
  }

  // ----- Cleaning

  /** Nothing to clean: no white space, no hyphen, no lower-case letter. */
  predicate Tidy(s: string) {
    forall i :: 0 <= i < |s| ==> !Space(s[i]) && s[i] != '-' && Upper(s[i]) == s[i]
  }

  lemma {:induction false} CleanTidies(s: string)
    ensures Tidy(Clean(s)) && |Clean(s)| <= |s|
  {
    if s != "" {
      CleanTidies(s[1..]);
      var head := Upper(s[0]);
      assert !Space(s[0]) ==> !Space(head);
      assert Upper(head) == head;
    }
  }

  lemma {:induction false} TidyStays(s: string)
    requires Tidy(s)
    ensures Clean(s) == s
  {
    if s != "" {
      assert Tidy(s[1..]) by {
        forall i | 0 <= i < |s[1..]| ensures !Space(s[1..][i]) && s[1..][i] != '-' && Upper(s[1..][i]) == s[1..][i] {
          assert s[1..][i] == s[i + 1];
        }
      }
      TidyStays(s[1..]);
      assert s == [s[0]] + s[1..];
    }
  }

  lemma {:induction false} CleanJoins(a: string, b: string)
    ensures Clean(a + b) == Clean(a) + Clean(b)
  {
    if a == "" {
      assert a + b == b;
    } else {
      assert (a + b)[1..] == a[1..] + b;
      CleanJoins(a[1..], b);
    }
  }

  /** Normalising twice is normalising once. */
  lemma IsbnIdempotent(value: string, length: int)
    requires Isbn(value, length).Some?
    ensures Isbn(Isbn(value, length).value, length) == Isbn(value, length)
  {
    CleanTidies(value);
    TidyStays(Clean(value));
  }

  /** What comes out is a valid number of that length; and a valid number is its own normal form. */
  lemma IsbnAccepts(value: string, length: int)
    ensures Isbn(value, length).Some? ==> Valid(Isbn(value, length).value, length)
    ensures Isbn(value, length).Some? ==>
      var s := Isbn(value, length).value;
      && |s| == length && (length == 10 || length == 13)
      && (forall i :: 0 <= i < length ==> '0' <= s[i] <= '9' || (i == 9 && length == 10 && s[i] == 'X'))
      && (length == 13 ==> s[..3] == "978" || s[..3] == "979")
    ensures Valid10(value) ==> Isbn(value, 10) == Some(value)
    ensures Valid13(value) ==> Isbn(value, 13) == Some(value)
  {
    if Shape10(value) || Shape13(value) {
      TidyStays(value);
    }
  }

  /** One character replaced: it is cleaned away, or upper-cased in its place. */
  lemma CleanChange(s: string, k: nat, c: char)
    requires Tidy(s) && k < |s|
    ensures Clean(s[k := c]) == if Space(c) || c == '-' then s[..k] + s[k + 1..] else s[k := Upper(c)]
  {
    hide Tidy, Space, Upper, Clean;
    var a, b := s[..k], s[k + 1..];
    TidyPart(s, 0, k);
    TidyPart(s, k + 1, |s|);
    assert s[0..k] == a && s[k + 1..|s|] == b;
    assert s[k := c] == a + ([c] + b);
    CleanJoins(a, [c] + b);
    CleanJoins([c], b);
    CleanOne(c);
    if Space(c) || c == '-' {
      assert a + ("" + b) == a + b;
    } else {
      assert s[k := Upper(c)] == a + ([Upper(c)] + b);
    }
  }

  lemma CleanOne(c: char)
    ensures Clean([c]) == if Space(c) || c == '-' then "" else [Upper(c)]
  {
    assert [c][1..] == "" && Clean("") == "";
  }

  lemma TidyPart(s: string, a: nat, b: nat)
    requires Tidy(s) && a <= b <= |s|
    ensures Clean(s[a..b]) == s[a..b]
  {
    var t := s[a..b];
    forall i | 0 <= i < |t|
      ensures !Space(t[i]) && t[i] != '-' && Upper(t[i]) == t[i]
    {
      assert t[i] == s[a + i];
    }
    TidyStays(t);
  }

  // ----- Errors

  lemma {:induction false} SumChange(weight: int -> int, s: string, k: nat, c: char, i: nat)
    requires k < |s| && i <= |s|
    ensures Sum(weight, s[k := c], i) == Sum(weight, s, i) + if i <= k then weight(k) * (Digit(c) - Digit(s[k])) else 0
    decreases |s| - i
  {
    if i < |s| {
      SumChange(weight, s, k, c, i + 1);
      if i == k {
        Distribute(weight(k), Digit(c), Digit(s[k]));
      }
    }
  }

  lemma SumSwap(weight: int -> int, s: string, i: nat, j: nat)
    requires i < j < |s|
    ensures Sum(weight, s[i := s[j]][j := s[i]], 0) ==
            Sum(weight, s, 0) + (weight(i) - weight(j)) * (Digit(s[j]) - Digit(s[i]))
  {
    hide Sum, Digit;
    var d := Digit(s[j]) - Digit(s[i]);
    SumChange(weight, s, i, s[j], 0);
    SumChange(weight, s[i := s[j]], j, s[i], 0);
    assert weight(j) * (Digit(s[i]) - Digit(s[j])) == -(weight(j) * d);
    Distribute(d, weight(i), weight(j));
  }

  lemma Distribute(w: int, a: int, b: int)
    ensures w * a == w * b + w * (a - b)
  {}

  /** Eleven is prime: a product of two numbers that it does not divide is not divisible by it. */
  lemma ElevenIsPrime(w: int, d: int)
    requires 1 <= w <= 10 && -10 <= d <= 10 && d != 0
    ensures (w * d) % 11 != 0
  {
    if d > 0 {
      var e := d;
      Eleven(w, e);
    } else {
      Eleven(w, -d);
      assert w * d == -(w * -d);
    }
  }

  lemma Eleven(w: int, d: int)
    requires 1 <= w <= 10 && 1 <= d <= 10
    ensures (w * d) % 11 != 0
  {
    assert w == 1 || w == 2 || w == 3 || w == 4 || w == 5 || w == 6 || w == 7 || w == 8 || w == 9 || w == 10;
  }

  lemma ChecksumChange(s: string, k: nat, c: char)
    requires Valid10(s) && k < 10 && Shape10(s[k := c]) && c != s[k]
    ensures !Valid10(s[k := c])
  {
    hide Sum, Digit, Shape10;
    DigitChanged(s, k, c);
    SumChange(Weight10, s, k, c, 0);
    var d := Digit(c) - Digit(s[k]);
    ElevenIsPrime(Weight10(k), d);
    Remainders(Sum(Weight10, s, 0), Weight10(k) * d);
  }

  lemma DigitChanged(s: string, k: nat, c: char)
    requires Shape10(s) && k < 10 && Shape10(s[k := c]) && c != s[k]
    ensures |s| == 10 && Digit(c) != Digit(s[k]) && -10 <= Digit(c) - Digit(s[k]) <= 10
  {
    assert c == s[k := c][k];
  }

  lemma ChecksumSwap(s: string, i: nat, j: nat)
    requires Valid10(s) && i < j < 10 && s[i] != s[j]
    requires Shape10(s[i := s[j]][j := s[i]])
    ensures !Valid10(s[i := s[j]][j := s[i]])
  {
    hide Sum, Shape10, Digit;
    DigitsDiffer(s, i, j);
    SumSwap(Weight10, s, i, j);
    var d := Digit(s[j]) - Digit(s[i]);
    var a, b := Sum(Weight10, s, 0), (j - i) * d;
    ElevenIsPrime(j - i, d);
    assert Weight10(i) - Weight10(j) == j - i;
    assert (a + b) % 11 != 0 by { Remainders(a, b); }
  }

  lemma Remainders(a: int, b: int)
    requires a % 11 == 0 && b % 11 != 0
    ensures (a + b) % 11 != 0
  {}

  lemma DigitsDiffer(s: string, i: nat, j: nat)
    requires Shape10(s) && i < 10 && j < 10 && s[i] != s[j]
    ensures |s| == 10 && Digit(s[i]) != Digit(s[j]) && -10 <= Digit(s[i]) - Digit(s[j]) <= 10
  {}

  /** Replacing one character of an accepted ISBN-10 is accepted only if it is the same character, in either case. */
  lemma Isbn10Change(s: string, k: nat, c: char)
    requires Valid10(s) && k < 10
    ensures Isbn(s[k := c], 10).Some? <==> Upper(c) == s[k]
  {
    hide Sum, Upper, Space;
    CleanOfLength(s);
    CleanChange(s, k, c);
    if Upper(c) == s[k] {
      assert s[k := s[k]] == s;
      UpperKeeps(c);
    } else if !Space(c) && c != '-' && Shape10(s[k := Upper(c)]) {
      ChecksumChange(s, k, Upper(c));
    }
  }

  /** A character that cleaning drops does not turn into a digit or an X. */
  lemma UpperKeeps(c: char)
    ensures Numeral(Upper(c)) || Upper(c) == 'X' ==> !Space(c) && c != '-'
  {}

  /** Swapping two characters, at any distance, is accepted only if they are equal. */
  lemma Isbn10Swap(s: string, i: nat, j: nat)
    requires Valid10(s) && i < j < 10
    ensures Isbn(s[i := s[j]][j := s[i]], 10).Some? <==> s[i] == s[j]
  {
    hide Sum;
    var t := s[i := s[j]][j := s[i]];
    CleanOfLength(t);
    if s[i] == s[j] {
      assert t == s;
    } else if Shape10(t) {
      ChecksumSwap(s, i, j);
    }
  }

  /** Digits and letters X are all kept. */
  lemma CleanOfLength(t: string)
    requires forall i :: 0 <= i < |t| ==> Numeral(t[i]) || t[i] == 'X'
    ensures Clean(t) == t && Tidy(t)
  {
    TidyStays(t);
  }

  lemma TenAndThree(w: int, d: int)
    requires (w == 1 || w == 3) && -9 <= d <= 9 && d != 0
    ensures (w * d) % 10 != 0
  {}

  lemma Checksum13Change(s: string, k: nat, c: char)
    requires Valid13(s) && k < 13 && Shape13(s[k := c]) && c != s[k]
    ensures !Valid13(s[k := c])
  {
    hide Sum;
    SumChange(Weight13, s, k, c, 0);
    assert c == s[k := c][k];
    TenAndThree(Weight13(k), Digit(c) - Digit(s[k]));
  }

  /** Replacing one digit of an accepted ISBN-13 by any other character is rejected. */
  lemma Isbn13Change(s: string, k: nat, c: char)
    requires Valid13(s) && k < 13
    ensures Isbn(s[k := c], 13).Some? <==> c == s[k]
  {
    hide Sum, Space;
    CleanOfLength(s);
    CleanChange(s, k, c);
    UpperKeeps(c);
    if c == s[k] {
      assert s[k := s[k]] == s;
    } else if !Space(c) && c != '-' && Shape13(s[k := Upper(c)]) {
      assert Numeral(s[k := Upper(c)][k]);
      Checksum13Change(s, k, Upper(c));
    }
  }

  lemma Checksum13Swap(s: string, k: nat)
    requires Valid13(s) && k < 12 && Shape13(s[k := s[k + 1]][k + 1 := s[k]])
    ensures Valid13(s[k := s[k + 1]][k + 1 := s[k]]) <==> (Digit(s[k + 1]) - Digit(s[k])) % 5 == 0
  {
    hide Sum, Digit, Shape13;
    Length13(s);
    SumSwap(Weight13, s, k, k + 1);
    var d := Digit(s[k + 1]) - Digit(s[k]);
    assert Weight13(k) - Weight13(k + 1) == if k % 2 == 0 then -2 else 2;
    TwiceByTen(Sum(Weight13, s, 0), if k % 2 == 0 then -2 else 2, d);
  }

  lemma Length13(s: string)
    requires Shape13(s)
    ensures |s| == 13
  {}

  lemma TwiceByTen(a: int, w: int, d: int)
    requires a % 10 == 0 && (w == 2 || w == -2)
    ensures (a + w * d) % 10 == 0 <==> d % 5 == 0
  {}

  /** Swapping neighbours goes unnoticed exactly when they are equal, or differ by five past the prefix. */
  lemma Isbn13AdjacentSwap(s: string, k: nat)
    requires Valid13(s) && k < 12
    ensures Isbn(s[k := s[k + 1]][k + 1 := s[k]], 13).Some? <==>
            s[k] == s[k + 1] || (k >= 3 && (Digit(s[k]) - Digit(s[k + 1]) == 5 || Digit(s[k + 1]) - Digit(s[k]) == 5))
  {
    hide Sum;
    var t := s[k := s[k + 1]][k + 1 := s[k]];
    CleanOfLength(t);
    PrefixSwap(s, k);
    if s[k] == s[k + 1] {
      assert t == s;
    } else if Shape13(t) {
      Checksum13Swap(s, k);
    }
  }

  /** A swap that touches the prefix breaks it, unless it exchanges an 8 and a 9. */
  lemma PrefixSwap(s: string, k: nat)
    requires Shape13(s) && k < 12
    ensures Shape13(s[k := s[k + 1]][k + 1 := s[k]]) <==> k >= 3 || (k == 2 && (s[3] == '8' || s[3] == '9'))
  {}

  lemma Term(weight: int -> int, s: string, i: nat, w: int)
    requires i < |s| && weight(i) == w
    ensures Sum(weight, s, i) == w * Digit(s[i]) + Sum(weight, s, i + 1)
  {}

  lemma Sum10(s: string)
    requires |s| == 10
    ensures Sum(Weight10, s, 0) ==
            10 * Digit(s[0]) + 9 * Digit(s[1]) + 8 * Digit(s[2]) + 7 * Digit(s[3]) + 6 * Digit(s[4]) + 5 * Digit(s[5])
            + 4 * Digit(s[6]) + 3 * Digit(s[7]) + 2 * Digit(s[8]) + Digit(s[9])
  {
    hide Sum, Digit;
    EmptySum(Weight10, s);
    Term(Weight10, s, 9, 1);
    Term(Weight10, s, 8, 2);
    Term(Weight10, s, 7, 3);
    Term(Weight10, s, 6, 4);
    Term(Weight10, s, 5, 5);
    Term(Weight10, s, 4, 6);
    Term(Weight10, s, 3, 7);
    Term(Weight10, s, 2, 8);
    Term(Weight10, s, 1, 9);
    Term(Weight10, s, 0, 10);
  }

  lemma Sum13(s: string)
    requires |s| == 13
    ensures Sum(Weight13, s, 0) ==
            Digit(s[0]) + 3 * Digit(s[1]) + Digit(s[2]) + 3 * Digit(s[3]) + Digit(s[4]) + 3 * Digit(s[5])
            + Digit(s[6]) + 3 * Digit(s[7]) + Digit(s[8]) + 3 * Digit(s[9]) + Digit(s[10]) + 3 * Digit(s[11])
            + Digit(s[12])
  {
    hide Sum, Digit;
    EmptySum(Weight13, s);
    Term(Weight13, s, 12, 1);
    Term(Weight13, s, 11, 3);
    Term(Weight13, s, 10, 1);
    Term(Weight13, s, 9, 3);
    Term(Weight13, s, 8, 1);
    Term(Weight13, s, 7, 3);
    Term(Weight13, s, 6, 1);
    Term(Weight13, s, 5, 3);
    Term(Weight13, s, 4, 1);
    Term(Weight13, s, 3, 3);
    Term(Weight13, s, 2, 1);
    Term(Weight13, s, 1, 3);
    Term(Weight13, s, 0, 1);
  }

  /** The value of a decimal digit. */
  function At(s: string, i: nat): int
    requires i < |s|
  {
    s[i] as int - 48
  }

  /** An ISBN-10 is accepted exactly when the sum of its digits, weighted from ten down to one, divides by eleven. */
  lemma Isbn10Checksum(s: string)
    requires |s| == 10 && (forall i :: 0 <= i < 9 ==> '0' <= s[i] <= '9') && ('0' <= s[9] <= '9' || s[9] == 'X')
    ensures var last := if s[9] == 'X' then 10 else At(s, 9);
            Isbn(s, 10) ==
            if (10 * At(s, 0) + 9 * At(s, 1) + 8 * At(s, 2) + 7 * At(s, 3) + 6 * At(s, 4) + 5 * At(s, 5)
                + 4 * At(s, 6) + 3 * At(s, 7) + 2 * At(s, 8) + last) % 11 == 0
            then Some(s) else None
  {
    CleanOfLength(s);
    Sum10(s);
    assert forall i :: 0 <= i < 9 ==> Digit(s[i]) == At(s, i);
    hide Sum, Clean, Tidy, At;
  }

  /** An ISBN-13 is accepted exactly when the sum of its digits, weighted one and three in turn, divides by ten. */
  lemma Isbn13Checksum(s: string)
    requires |s| == 13 && (forall i :: 0 <= i < 13 ==> '0' <= s[i] <= '9')
    requires s[0] == '9' && s[1] == '7' && (s[2] == '8' || s[2] == '9')
    ensures Isbn(s, 13) ==
            if (At(s, 0) + 3 * At(s, 1) + At(s, 2) + 3 * At(s, 3) + At(s, 4) + 3 * At(s, 5) + At(s, 6) + 3 * At(s, 7)
                + At(s, 8) + 3 * At(s, 9) + At(s, 10) + 3 * At(s, 11) + At(s, 12)) % 10 == 0
            then Some(s) else None
  {
    CleanOfLength(s);
    Sum13(s);
    assert forall i :: 0 <= i < 13 ==> Digit(s[i]) == At(s, i);
    assert Shape13(s);
    hide Sum, Clean, Tidy, At, Digit, Shape13, Shape10, Space, Upper;
  }

  const SPACES := "\t\n\U{b}\U{c}\r\U{1c}\U{1d}\U{1e}\U{1f} \U{85}\U{a0}\U{1680}" +
                  "\U{2000}\U{2001}\U{2002}\U{2003}\U{2004}\U{2005}\U{2006}\U{2007}\U{2008}\U{2009}\U{200a}" +
                  "\U{2028}\U{2029}\U{202f}\U{205f}\U{3000}"

  lemma SpacesMeans(c: char)
    ensures Space(c) <==> c in SPACES
  {}

  /** Hyphens and white space do not matter, wherever they stand, and a lower-case x is an X. */
  lemma SeparatorsIgnored(a: string, c: char, b: string, length: int)
    ensures c == '-' || Space(c) ==> Isbn(a + [c] + b, length) == Isbn(a + b, length)
    ensures Isbn(a + "x" + b, length) == Isbn(a + "X" + b, length)
  {
    CleanJoins(a, b);
    CleanJoins(a, [c]);
    CleanJoins(a + [c], b);
    CleanOne(c);
    CleanJoins(a, "x");
    CleanJoins(a + "x", b);
    CleanOne('x');
    CleanJoins(a, "X");
    CleanJoins(a + "X", b);
    CleanOne('X');
    assert Clean(a) + "" == Clean(a);
  }

  /** The neighbours 6 and 1, swapped: two valid numbers. */
  lemma SwapUnnoticed()
    ensures Isbn("9780306406157", 13).Some? && Isbn("9780306401657", 13).Some?
  {
    hide Isbn;
    Isbn13Checksum("9780306406157");
    Isbn13Checksum("9780306401657");
  }

  lemma EmptySum(weight: int -> int, s: string)
    ensures Sum(weight, s, |s|) == 0
  {}
}
