/** The names under which `add` registers loss terms: the assertion string
    `<pred>_<p1>_..._<pn>` and, for assertions with several residuals, the per-residual key. */
module Keys {

  /** The names joined with a separator between consecutive ones (str.join). */
  function Join(ps: seq<string>, sep: string): (r: string)
    ensures |ps| == 0 ==> r == ""
    ensures |ps| > 0 ==> |r| == TotalLength(ps) + (|ps| - 1) * |sep|
    ensures |ps| > 0 ==> r[..|ps[0]|] == ps[0]
  {
    if |ps| == 0 then ""
    else if |ps| == 1 then ps[0]
    else ps[0] + sep + Join(ps[1..], sep)
  }

  function TotalLength(ps: seq<string>): nat {
    if |ps| == 0 then 0 else |ps[0]| + TotalLength(ps[1..])
  }

  /** The key of an assertion: its predicate followed by its operands, all separated by "_". */
  function AssertionKey(pred: string, ps: seq<string>): (r: string)
    ensures |r| == |pred| + 1 + (if |ps| == 0 then 0 else TotalLength(ps) + (|ps| - 1))
    ensures r[..|pred| + 1] == pred + "_"
  {
    pred + "_" + Join(ps, "_")
  }

  /** The position of the first c in s. */
  function IndexOf(s: string, c: char): (i: nat)
    requires c in s
    ensures i < |s| && s[i] == c && c !in s[..i]
  {
    if s[0] == c then 0
    else
      var j := IndexOf(s[1..], c);
      assert s[..j + 1] == [s[0]] + s[1..][..j];
      j + 1
  }

  /** str.split with a one-character separator: the pieces between consecutive separators,
      including empty ones. */
  function Split(s: string, c: char): (parts: seq<string>)
    ensures |parts| >= 1
    decreases |s|
  {
    if c !in s then [s]
    else
      var i := IndexOf(s, c);
      [s[..i]] + Split(s[i + 1..], c)
  }

  const Digits: string := "0123456789"

  /** The decimal numeral of n, most significant digit first. */
  function NatToString(n: nat): (s: string)
    ensures |s| >= 1
    ensures forall i :: 0 <= i < |s| ==> s[i] in Digits
    ensures |s| > 1 ==> s[0] != '0'
  {
    if n < 10 then [Digits[n]] else NatToString(n / 10) + [Digits[n % 10]]
  }

  /** The value of a digit character. */
  function DigitValue(c: char): (d: nat)
    requires c in Digits
    ensures d < 10 && Digits[d] == c
  {
    if c == '0' then 0 else if c == '1' then 1 else if c == '2' then 2 else if c == '3' then 3
    else if c == '4' then 4 else if c == '5' then 5 else if c == '6' then 6 else if c == '7' then 7
    else if c == '8' then 8 else 9
  }

  /** The value of a decimal numeral: the independent reading of NatToString's output. */
  function ParseDecimal(s: string): nat
    requires forall i :: 0 <= i < |s| ==> s[i] in Digits
  {
    if |s| == 0 then 0 else 10 * ParseDecimal(s[..|s| - 1]) + DigitValue(s[|s| - 1])
  }

  /** The key of the i-th of k residuals of an assertion whose key is aStr: the assertion key
      when there is a single residual, otherwise the literal prefix "a_str_" and the index. */
  function LossKey(aStr: string, k: nat, i: nat): string {
    if k == 1 then aStr else "a_str_" + NatToString(i)
  }

  // ---------------------------------------------------------------------------
  // Laws
  // ---------------------------------------------------------------------------

  /** Splitting joined names at their one-character separator gives the names back, when no
      name contains the separator. */
  lemma {:induction false} SplitJoin(ps: seq<string>, c: char)
    requires |ps| > 0 && forall i :: 0 <= i < |ps| ==> c !in ps[i]
    ensures Split(Join(ps, [c]), c) == ps
  {
    if |ps| > 1 {
      var rest := Join(ps[1..], [c]);
      FirstSeparator(ps[0], c, rest);
      var s := ps[0] + [c] + rest;
      assert s[..|ps[0]|] == ps[0];
      assert s[|ps[0]| + 1..] == rest;
      SplitJoin(ps[1..], c);
    }
  }

  /** In p + [c] + q with no c in p, the first c is the one after p. */
  lemma FirstSeparator(p: string, c: char, q: string)
    requires c !in p
    ensures c in p + [c] + q && IndexOf(p + [c] + q, c) == |p|
  {
    var s := p + [c] + q;
    assert s[|p|] == c;
    assert s[..|p|] == p;
  }

  /** An assertion key lists its predicate and then its names: splitting it at "_" gives them
      back, when none of them contains "_". */
  lemma AssertionKeyParts(pred: string, ps: seq<string>)
    requires '_' !in pred && forall i :: 0 <= i < |ps| ==> '_' !in ps[i]
    ensures |ps| > 0 ==> Split(AssertionKey(pred, ps), '_') == [pred] + ps
    ensures |ps| == 0 ==> Split(AssertionKey(pred, ps), '_') == [pred, ""]
  {
    if |ps| > 0 {
      var qs := [pred] + ps;
      assert qs[1..] == ps;
      assert AssertionKey(pred, ps) == Join(qs, "_");
      SplitJoin(qs, '_');
    } else {
      var s := AssertionKey(pred, ps);
      assert s == pred + "_";
      FirstSeparator(pred, '_', "");
      assert s[..|pred|] == pred;
      assert s[|pred| + 1..] == "";
    }
  }

  /** Two assertions without "_" in their predicates and names share a key only when they
      are the same assertion. */
  lemma AssertionKeyInjective(p1: string, ps1: seq<string>, p2: string, ps2: seq<string>)
    requires '_' !in p1 && forall i :: 0 <= i < |ps1| ==> '_' !in ps1[i]
    requires '_' !in p2 && forall i :: 0 <= i < |ps2| ==> '_' !in ps2[i]
    requires |ps1| > 0 && |ps2| > 0
    ensures AssertionKey(p1, ps1) == AssertionKey(p2, ps2) <==> p1 == p2 && ps1 == ps2
  {
    AssertionKeyParts(p1, ps1);
    AssertionKeyParts(p2, ps2);
    if AssertionKey(p1, ps1) == AssertionKey(p2, ps2) {
      assert ([p1] + ps1)[1..] == ps1 && ([p2] + ps2)[1..] == ps2;
    }
  }

  /** Reading back a numeral gives the number it was written from. */
  lemma {:induction false} ParseNatToString(n: nat)
    ensures ParseDecimal(NatToString(n)) == n
  {
    var s := NatToString(n);
    if n < 10 {
      assert s[..|s| - 1] == [];
      DigitRoundTrip(n);
    } else {
      var q, d := n / 10, n % 10;
      assert s[..|s| - 1] == NatToString(q);
      assert s[|s| - 1] == Digits[d];
      ParseNatToString(q);
      DigitRoundTrip(d);
      assert n == 10 * q + d;
    }
  }

  /** The value of the d-th digit character is d. */
  lemma DigitRoundTrip(d: nat)
    requires d < 10
    ensures DigitValue(Digits[d]) == d
  {
  }

  /** Distinct numbers have distinct numerals. */
  lemma NatToStringInjective(m: nat, n: nat)
    ensures NatToString(m) == NatToString(n) ==> m == n
  {
    ParseNatToString(m);
    ParseNatToString(n);
  }

  /** The residuals of one assertion get pairwise distinct keys. */
  lemma LossKeysDistinct(aStr: string, k: nat, i: nat, j: nat)
    requires i < k && j < k && i != j
    ensures LossKey(aStr, k, i) != LossKey(aStr, k, j)
  {
    NatToStringInjective(i, j);
    if k != 1 {
      var ri, rj := LossKey(aStr, k, i), LossKey(aStr, k, j);
      assert ri[6..] == NatToString(i) && rj[6..] == NatToString(j);
    }
  }

  /** Beyond a single residual the key does not mention the assertion, so two assertions
      with several residuals each would write to the same keys. */
  lemma LossKeyIgnoresAssertion(a1: string, a2: string, k: nat, i: nat)
    requires k != 1
    ensures LossKey(a1, k, i) == LossKey(a2, k, i)
  {
  }
}
