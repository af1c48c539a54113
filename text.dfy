/** String helpers the generators rely on from Python: decimal and
    comma-grouped renderings of integers, substring tests, `lower()` and
    `strip()`. */
module Text {

  // ---------------------------------------------------------------------
  // Decimal digits

  predicate IsDigit(c: char) {
    '0' <= c <= '9'
  }

  predicate AllDigits(s: string) {
    forall i :: 0 <= i < |s| ==> IsDigit(s[i])
  }

  function DigitChar(d: nat): (c: char)
    requires d < 10
    ensures IsDigit(c)
  {
    "0123456789"[d]
  }

  /** The value of a digit; any other character reads as 0. */
  function DigitValue(c: char): (d: nat)
    ensures d < 10
  {
    if IsDigit(c) then c as int - '0' as int else 0
  }

  /** The decimal digits of `n`, most significant first, without leading zeros. */
  function Digits(n: nat): (s: string)
    ensures 1 <= |s| && AllDigits(s)
    ensures n < 10 <==> |s| == 1
    ensures 0 < n ==> s[0] != '0'
    decreases n
  {
    if n < 10 then [DigitChar(n)] else Digits(n / 10) + [DigitChar(n % 10)]
  }

  /** A number of at least 1000 has at least four digits. */
  lemma DigitsAtLeastFour(n: nat)
    requires n >= 1000
    ensures |Digits(n)| >= 4
  {
    var m := n / 10;
    assert m >= 100;
    DigitsDropLast(n);
    DigitsDropLast(m);
  }

  lemma DigitsDropLast(n: nat)
    requires n >= 10
    ensures |Digits(n)| == |Digits(n / 10)| + 1
  {
  }

  function ParseDigits(s: string): nat
    decreases |s|
  {
    if s == [] then 0 else 10 * ParseDigits(s[..|s| - 1]) + DigitValue(s[|s| - 1])
  }

  lemma {:induction false} ParseDigitsOfDigits(n: nat)
    ensures ParseDigits(Digits(n)) == n
    decreases n
  {
    var s := Digits(n);
    if n >= 10 {
      ParseDigitsOfDigits(n / 10);
      assert s[..|s| - 1] == Digits(n / 10);
      assert DigitValue(s[|s| - 1]) == n % 10;
    } else {
      assert s[..0] == [];
    }
  }

  /** Python's `str(i)` on an int. */
  function DecimalString(i: int): (s: string)
    ensures 1 <= |s|
  {
    if i < 0 then "-" + Digits(-i) else Digits(i)
  }

  // ---------------------------------------------------------------------
  // Python's `f"{i:,}"`: groups of three digits separated by commas

  function Grouped(d: string): (g: string)
    decreases |d|
  {
    if |d| <= 3 then d else Grouped(d[..|d| - 3]) + "," + d[|d| - 3..]
  }

  function Thousands(i: int): (s: string)
    ensures 1 <= |s|
  {
    if i < 0 then "-" + Grouped(Digits(-i)) else Grouped(Digits(i))
  }

  /** The characters of `s` other than commas. */
  function Ungrouped(s: string): string
    decreases |s|
  {
    if s == [] then [] else Ungrouped(s[..|s| - 1]) + (if s[|s| - 1] == ',' then [] else [s[|s| - 1]])
  }

  /** Reads back a number written by `Thousands`. */
  function ParseThousands(s: string): int {
    if 0 < |s| && s[0] == '-' then -(ParseDigits(Ungrouped(s[1..])) as int) else ParseDigits(Ungrouped(s))
  }

  lemma {:induction false} UngroupedDigits(d: string)
    requires AllDigits(d)
    ensures Ungrouped(d) == d
    decreases |d|
  {
    if d != [] {
      UngroupedDigits(d[..|d| - 1]);
      assert d[..|d| - 1] + [d[|d| - 1]] == d;
    }
  }

  /** Removing the commas from a grouped digit string gives the digits back. */
  lemma {:induction false} UngroupedGrouped(d: string)
    requires AllDigits(d)
    ensures Ungrouped(Grouped(d)) == d
    decreases |d|
  {
    if |d| <= 3 {
      UngroupedDigits(d);
    } else {
      var hi, lo := d[..|d| - 3], d[|d| - 3..];
      assert AllDigits(hi) && AllDigits(lo) by {
        forall i | 0 <= i < |hi| ensures IsDigit(hi[i]) { assert hi[i] == d[i]; }
        forall i | 0 <= i < |lo| ensures IsDigit(lo[i]) { assert lo[i] == d[|d| - 3 + i]; }
      }
      UngroupedGrouped(hi);
      UngroupedGroup(Grouped(hi), lo);
      assert hi + lo == d;
    }
  }

  /** One more group after a comma adds its digits and nothing else. */
  lemma UngroupedGroup(g: string, lo: string)
    requires AllDigits(lo)
    ensures Ungrouped(g + "," + lo) == Ungrouped(g) + lo
  {
    var gc := g + ",";
    assert gc[..|gc| - 1] == g && gc[|gc| - 1] == ',';
    assert Ungrouped(gc) == Ungrouped(g);
    UngroupedAppendDigits(gc, lo);
  }

  lemma {:induction false} UngroupedAppendDigits(a: string, lo: string)
    requires AllDigits(lo)
    ensures Ungrouped(a + lo) == Ungrouped(a) + lo
    decreases |lo|
  {
    if lo == [] {
      assert a + lo == a;
    } else {
      var init, last := lo[..|lo| - 1], lo[|lo| - 1];
      assert AllDigits(init) by {
        forall i | 0 <= i < |init| ensures IsDigit(init[i]) { assert init[i] == lo[i]; }
      }
      var s := a + lo;
      assert s[..|s| - 1] == a + init && s[|s| - 1] == last;
      assert IsDigit(last);
      UngroupedAppendDigits(a, init);
      assert init + [last] == lo;
    }
  }

  lemma {:induction false} GroupedNoLeadingSign(d: string)
    requires AllDigits(d) && 1 <= |d|
    ensures 1 <= |Grouped(d)| && IsDigit(Grouped(d)[0])
    decreases |d|
  {
    if |d| > 3 {
      GroupedNoLeadingSign(d[..|d| - 3]);
    }
  }

  /** `Thousands` loses nothing: the grouped text reads back as the number. */
  lemma ThousandsRoundTrip(i: int)
    ensures ParseThousands(Thousands(i)) == i
  {
    var n: nat := if i < 0 then -i else i;
    var g := Grouped(Digits(n));
    GroupedNoLeadingSign(Digits(n));
    UngroupedGrouped(Digits(n));
    ParseDigitsOfDigits(n);
    assert ParseDigits(Ungrouped(g)) == n;
    if i < 0 {
      var s := "-" + g;
      assert Thousands(i) == s;
      assert s[1..] == g;
    } else {
      assert Thousands(i) == g;
      assert g[0] != '-';
    }
  }

  // ---------------------------------------------------------------------
  // Substrings, case and white space

  predicate StartsWith(s: string, prefix: string) {
    |prefix| <= |s| && s[..|prefix|] == prefix
  }

  predicate EndsWith(s: string, suffix: string) {
    |suffix| <= |s| && s[|s| - |suffix|..] == suffix
  }

  /** Python's `sub in s`. */
  predicate Contains(s: string, sub: string)
    decreases |s|
  {
    StartsWith(s, sub) || (0 < |s| && Contains(s[1..], sub))
  }

  lemma {:induction false} ContainsAt(s: string, sub: string, k: nat)
    requires k + |sub| <= |s| && s[k..k + |sub|] == sub
    ensures Contains(s, sub)
    decreases k
  {
    if k > 0 {
      assert s[1..][k - 1..k - 1 + |sub|] == s[k..k + |sub|];
      ContainsAt(s[1..], sub, k - 1);
    }
  }

  lemma {:induction false} ContainsWitness(s: string, sub: string) returns (k: nat)
    requires Contains(s, sub)
    ensures k + |sub| <= |s| && s[k..k + |sub|] == sub
    decreases |s|
  {
    if StartsWith(s, sub) {
      k := 0;
    } else {
      var k' := ContainsWitness(s[1..], sub);
      k := k' + 1;
      assert s[1..][k'..k' + |sub|] == s[k..k + |sub|];
    }
  }

  function LowerChar(c: char): char {
    if 'A' <= c <= 'Z' then (c as int + 32) as char else c
  }

  /** `s.lower()`, restricted to the ASCII letters. */
  function Lower(s: string): (r: string)
    ensures |r| == |s|
    ensures forall i :: 0 <= i < |s| ==> r[i] == LowerChar(s[i])
  {
    seq(|s|, i requires 0 <= i < |s| => LowerChar(s[i]))
  }

  /** Lowering leaves no ASCII capital, changes nothing else, works
      piecewise on a concatenation and is idempotent, so a suffix read as
      ".CSV" or ".Csv" compares equal to ".csv". */
  lemma LowerSpec(s: string, t: string)
    ensures forall i :: 0 <= i < |s| ==> !('A' <= Lower(s)[i] <= 'Z')
    ensures forall i :: 0 <= i < |s| && !('A' <= s[i] <= 'Z') ==> Lower(s)[i] == s[i]
    ensures Lower(s + t) == Lower(s) + Lower(t)
    ensures Lower(Lower(s)) == Lower(s)
    ensures Lower(".CSV") == Lower(".Csv") == ".csv"
  {
    assert Lower(".CSV") == ".csv";
    assert Lower(".Csv") == ".csv";
  }

  /** `c.isspace()`: the characters Python treats as white space. */
  predicate IsSpace(c: char) {
    var n := c as int;
    || 0x09 <= n <= 0x0D || 0x1C <= n <= 0x20
    || n == 0x85 || n == 0xA0 || n == 0x1680
    || 0x2000 <= n <= 0x200A
    || n == 0x2028 || n == 0x2029 || n == 0x202F || n == 0x205F
    || n == 0x3000
  }

  /** `s.strip() == ""` */
  predicate IsBlank(s: string) {
    forall i :: 0 <= i < |s| ==> IsSpace(s[i])
  }
}
