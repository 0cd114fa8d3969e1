/**
 Numerals and separated lists as text: rendering a number in base 10 or 16,
 reading one back, and joining or splitting a list of fields at a separator.
 These are the building blocks of the socket-address text format in module Net.
 */
module Textual {
  import opened Optional

  /** The lower-case digit for a value below 16. */
  function DigitChar(d: nat): (c: char)
    requires d < 16
    ensures DigitValue(c) == Some(d)
  {
    if d < 10 then (48 + d) as char else (87 + d) as char
  }

  /** The value of a decimal or hexadecimal digit (either case); None for any other character. */
  function DigitValue(c: char): (r: Option<nat>)
    ensures r.Some? ==> r.value < 16
  {
    if '0' <= c <= '9' then Some(c as int - '0' as int)
    else if 'a' <= c <= 'f' then Some(c as int - 'a' as int + 10)
    else if 'A' <= c <= 'F' then Some(c as int - 'A' as int + 10)
    else None
  }

  predicate IsDigit(c: char, base: nat) {
    DigitValue(c).Some? && DigitValue(c).value < base
  }

  /** n written in the given base, most significant digit first, without leading zeros. */
  function Show(n: nat, base: nat): (s: string)
    requires 2 <= base <= 16
    ensures |s| >= 1
    ensures forall i :: 0 <= i < |s| ==> IsDigit(s[i], base)
    decreases n
  {
    if n < base then [DigitChar(n)]
    else
      DivShrinks(n, base);
      Show(n / base, base) + [DigitChar(n % base)]
  }

  lemma DivShrinks(n: nat, base: nat)
    requires 2 <= base <= n
    ensures n / base < n
  {
    var q := n / base;
    assert n == base * q + n % base;
    AtLeastDouble(q, base);
  }

  lemma {:induction false} AtLeastDouble(q: nat, b: nat)
    requires b >= 2
    ensures b * q >= 2 * q
    decreases b
  {
    if b > 2 {
      AtLeastDouble(q, b - 1);
      assert b * q == (b - 1) * q + q;
    }
  }

  /** The value of a digit string, most significant digit first; None if a character is not a digit of the base. */
  function Digits(s: string, base: nat): (r: Option<nat>)
    decreases |s|
  {
    if s == [] then Some(0)
    else
      match Digits(s[..|s| - 1], base)
      case None => None
      case Some(v) =>
        var d := DigitValue(s[|s| - 1]);
        if d.Some? && d.value < base then Some(v * base + d.value) else None
  }

  /** A numeral: a non-empty digit string. */
  function ParseNum(s: string, base: nat): Option<nat> {
    if s == [] then None else Digits(s, base)
  }

  /** Appending a digit d to a numeral of value v gives v * base + d. */
  lemma DigitsSnoc(s: string, c: char, base: nat, v: nat, d: nat)
    requires Digits(s, base) == Some(v) && DigitValue(c) == Some(d) && d < base
    ensures Digits(s + [c], base) == Some(v * base + d)
  {
    assert (s + [c])[..|s + [c]| - 1] == s;
  }

  lemma DivMod(n: nat, base: nat)
    requires 2 <= base
    ensures (n / base) * base + n % base == n
  {
  }

  lemma {:induction false} ParseShow(n: nat, base: nat)
    requires 2 <= base <= 16
    ensures ParseNum(Show(n, base), base) == Some(n)
    decreases n
  {
    if n < base {
      DigitsSnoc([], DigitChar(n), base, 0, n);
      assert [] + [DigitChar(n)] == Show(n, base);
    } else {
      DivShrinks(n, base);
      ParseShow(n / base, base);
      DigitsSnoc(Show(n / base, base), DigitChar(n % base), base, n / base, n % base);
      DivMod(n, base);
    }
  }

  /** The fields separated by one copy of sep each. */
  function Join(parts: seq<string>, sep: char): string
    requires |parts| >= 1
  {
    if |parts| == 1 then parts[0] else parts[0] + [sep] + Join(parts[1..], sep)
  }

  /** The maximal runs of s between occurrences of sep; always at least one (possibly empty) field. */
  function Split(s: string, sep: char): (r: seq<string>)
    ensures |r| >= 1
    decreases |s|
  {
    if s == [] then [""]
    else
      var rest := Split(s[1..], sep);
      if s[0] == sep then [""] + rest else [[s[0]] + rest[0]] + rest[1..]
  }

  lemma {:induction false} SplitPrefix(p: string, t: string, sep: char)
    requires sep !in p
    ensures Split(p + t, sep) == [p + Split(t, sep)[0]] + Split(t, sep)[1..]
    decreases |p|
  {
    if p != [] {
      SplitPrefix(p[1..], t, sep);
      assert (p + t)[1..] == p[1..] + t;
      assert [p[0]] + (p[1..] + Split(t, sep)[0]) == p + Split(t, sep)[0];
    } else {
      assert p + t == t;
      var r := Split(t, sep);
      assert r == [r[0]] + r[1..];
      assert p + r[0] == r[0];
    }
  }

  /** Splitting undoes joining, provided no field contains the separator. */
  lemma {:induction false} SplitJoin(parts: seq<string>, sep: char)
    requires |parts| >= 1
    requires forall i :: 0 <= i < |parts| ==> sep !in parts[i]
    ensures Split(Join(parts, sep), sep) == parts
    decreases |parts|
  {
    if |parts| == 1 {
      SplitPrefix(parts[0], "", sep);
      assert parts[0] + "" == parts[0];
      assert Split("", sep) == [""];
    } else {
      var tail := Join(parts[1..], sep);
      SplitJoin(parts[1..], sep);
      SplitPrefix(parts[0], [sep] + tail, sep);
      assert parts[0] + [sep] + tail == parts[0] + ([sep] + tail);
      assert ([sep] + tail)[1..] == tail;
      assert Split([sep] + tail, sep) == [""] + Split(tail, sep);
      assert parts[0] + "" == parts[0];
      assert parts == [parts[0]] + parts[1..];
    }
  }

  /** A joined list contains a character only if a field or the separator does. */
  lemma {:induction false} JoinAvoids(parts: seq<string>, sep: char, c: char)
    requires |parts| >= 1 && c != sep
    requires forall i :: 0 <= i < |parts| ==> c !in parts[i]
    ensures c !in Join(parts, sep)
    decreases |parts|
  {
    if |parts| > 1 {
      JoinAvoids(parts[1..], sep, c);
    }
  }

  /** Each number of ns as a numeral. */
  function ShowAll(ns: seq<nat>, base: nat): (r: seq<string>)
    requires 2 <= base <= 16
    ensures |r| == |ns|
    ensures forall i :: 0 <= i < |r| ==> r[i] == Show(ns[i], base)
  {
    if ns == [] then [] else [Show(ns[0], base)] + ShowAll(ns[1..], base)
  }

  /** How one field is written: its base, the most digits it may have, whether a leading zero is allowed, and the bound on its value. */
  datatype NumeralFormat = NumeralFormat(base: nat, width: nat, zeroPrefix: bool, bound: nat)

  /** A numeral in format f; None if s is empty, too long, starts with a zero f does not allow, has a non-digit, or is too large. */
  function ReadNumeral(s: string, f: NumeralFormat): (r: Option<nat>)
    ensures r.Some? ==> r.value < f.bound
  {
    if s == [] || |s| > f.width || (!f.zeroPrefix && |s| > 1 && s[0] == '0') then None
    else
      match Digits(s, f.base)
      case Some(n) => if n < f.bound then Some(n) else None
      case None => None
  }

  /** Every field read as a numeral in format f; None if any one is not. */
  function ParseAll(parts: seq<string>, f: NumeralFormat): (r: Option<seq<nat>>)
    ensures r.Some? ==> |r.value| == |parts|
    ensures r.Some? ==> forall i :: 0 <= i < |r.value| ==> r.value[i] < f.bound
  {
    if parts == [] then Some([])
    else
      match (ReadNumeral(parts[0], f), ParseAll(parts[1..], f))
      case (Some(n), Some(ns)) => Some([n] + ns)
      case _ => None
  }

  function Pow(b: nat, k: nat): nat {
    if k == 0 then 1 else b * Pow(b, k - 1)
  }

  /** Show writes a leading zero only for the number 0 itself, which it writes as a single digit. */
  lemma {:induction false} ShowNoLeadingZero(n: nat, base: nat)
    requires 2 <= base <= 16
    ensures Show(n, base)[0] == '0' ==> n == 0
    ensures |Show(n, base)| > 1 ==> n >= base
    decreases n
  {
    if n >= base {
      DivShrinks(n, base);
      DivMod(n, base);
      ShowNoLeadingZero(n / base, base);
      assert Show(n, base)[0] == Show(n / base, base)[0];
    }
  }

  lemma {:induction false} MulMono(b: nat, x: nat, y: nat)
    requires x <= y
    ensures b * x <= b * y
    decreases b
  {
    if b > 0 {
      MulMono(b - 1, x, y);
      assert b * x == (b - 1) * x + x;
      assert b * y == (b - 1) * y + y;
    }
  }

  lemma DivBelow(n: nat, b: nat, p: nat)
    requires b >= 1 && n < b * p
    ensures n / b < p
  {
    var q := n / b;
    assert b * q <= n;
    if q >= p {
      MulMono(b, p, q);
    }
  }

  /** A number below base^k is written in at most k digits. */
  lemma {:induction false} ShowWidth(n: nat, base: nat, k: nat)
    requires 2 <= base <= 16 && 1 <= k && n < Pow(base, k)
    ensures |Show(n, base)| <= k
    decreases k
  {
    if n >= base {
      assert k != 1;
      DivShrinks(n, base);
      DivBelow(n, base, Pow(base, k - 1));
      ShowWidth(n / base, base, k - 1);
    }
  }

  /** A number below the bound that Show writes in at most the allowed digits reads back in format f. */
  lemma ReadShow(n: nat, f: NumeralFormat)
    requires 2 <= f.base <= 16 && n < f.bound && |Show(n, f.base)| <= f.width
    ensures ReadNumeral(Show(n, f.base), f) == Some(n)
  {
    ParseShow(n, f.base);
    ShowNoLeadingZero(n, f.base);
  }

  /** Fields that each read as the matching number of ns read as ns. */
  lemma {:induction false} ParseAllEach(parts: seq<string>, ns: seq<nat>, f: NumeralFormat)
    requires |parts| == |ns|
    requires forall i :: 0 <= i < |parts| ==> ReadNumeral(parts[i], f) == Some(ns[i])
    ensures ParseAll(parts, f) == Some(ns)
    decreases |parts|
  {
    if parts != [] {
      assert ParseAll(parts[1..], f) == Some(ns[1..]) by {
        forall i | 0 <= i < |parts[1..]| ensures ReadNumeral(parts[1..][i], f) == Some(ns[1..][i]) {
          assert parts[1..][i] == parts[i + 1] && ns[1..][i] == ns[i + 1];
        }
        ParseAllEach(parts[1..], ns[1..], f);
      }
      ParseAllCons(parts, f, ns[0], ns[1..]);
      assert ns == [ns[0]] + ns[1..];
    }
  }

  lemma ParseAllCons(parts: seq<string>, f: NumeralFormat, n: nat, ns: seq<nat>)
    requires parts != [] && ReadNumeral(parts[0], f) == Some(n)
    requires ParseAll(parts[1..], f) == Some(ns)
    ensures ParseAll(parts, f) == Some([n] + ns)
  {
  }

  /** No numeral contains a character that is not a digit. */
  lemma ShowAllAvoids(ns: seq<nat>, base: nat, c: char)
    requires 2 <= base <= 16 && DigitValue(c).None?
    ensures forall i :: 0 <= i < |ns| ==> c !in ShowAll(ns, base)[i]
  {
  }
}
