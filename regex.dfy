/** The anchored regular expressions of the checkout form, as a small regex
    language with a whole-string matching semantics. `^` and `$` without flags
    anchor at the two ends of the input, so a rule holds when the whole field
    value is in the language of its pattern. */
module Patterns {

  datatype Regex =
    | Range(lo: char, hi: char)                 // [lo-hi], one character
    | Lit(c: char)                              // one literal character
    | Cat(first: Regex, second: Regex)          // first then second
    | Alt(left: Regex, right: Regex)            // left | right
    | Repeat(body: Regex, min: nat, max: nat)   // body{min,max}; `?` is {0,1}

  /** Decreases on every path of the matcher, including one repetition step. */
  function Size(r: Regex): nat {
    match r
    case Range(_, _) => 1
    case Lit(_) => 1
    case Cat(a, b) => Size(a) + Size(b) + 1
    case Alt(a, b) => Size(a) + Size(b) + 1
    case Repeat(a, _, hi) => Size(a) + hi + 1
  }

  /** The whole of `s` is in the language of `r`. */
  predicate Matches(r: Regex, s: string)
    decreases Size(r)
  {
    match r
    case Range(lo, hi) => |s| == 1 && lo <= s[0] <= hi
    case Lit(c) => s == [c]
    case Cat(a, b) =>
      exists k :: 0 <= k <= |s| && Matches(a, s[..k]) && Matches(b, s[k..])
    case Alt(a, b) => Matches(a, s) || Matches(b, s)
    case Repeat(a, lo, hi) =>
      (lo == 0 && s == []) ||
      (hi > 0 && exists k :: 0 <= k <= |s| && Matches(a, s[..k])
                          && Matches(Repeat(a, if lo == 0 then 0 else lo - 1, hi - 1), s[k..]))
  }

  /** The `\d` class: the ASCII digits only. */
  function Digit(): Regex {
    Range('0', '9')
  }

  predicate IsDigit(c: char) {
    '0' <= c <= '9'
  }

  predicate AllDigits(s: string) {
    forall i :: 0 <= i < |s| ==> IsDigit(s[i])
  }

  /** One repetition step of `\d{lo,hi}` consumes exactly the first character. */
  lemma DigitStep(lo: nat, hi: nat, s: string)
    requires hi > 0 && s != []
    ensures Matches(Repeat(Digit(), lo, hi), s) <==>
      IsDigit(s[0]) && Matches(Repeat(Digit(), if lo == 0 then 0 else lo - 1, hi - 1), s[1..])
  {
    var rest := Repeat(Digit(), if lo == 0 then 0 else lo - 1, hi - 1);
    assert s[..1] == [s[0]];
    if Matches(Repeat(Digit(), lo, hi), s) {
      var k :| 0 <= k <= |s| && Matches(Digit(), s[..k]) && Matches(rest, s[k..]);
      assert |s[..k]| == 1;
    }
  }

  lemma AllDigitsStep(s: string)
    requires s != []
    ensures AllDigits(s) <==> IsDigit(s[0]) && AllDigits(s[1..])
  {
    assert forall i :: 1 <= i < |s| ==> s[i] == s[1..][i - 1];
  }

  /** `\d{lo,hi}` holds exactly of digit strings whose length lies in [lo, hi]. */
  lemma {:induction false} DigitRun(lo: nat, hi: nat, s: string)
    ensures Matches(Repeat(Digit(), lo, hi), s) <==> lo <= |s| <= hi && AllDigits(s)
    decreases hi
  {
    if hi > 0 {
      if s != [] {
        DigitRun(if lo == 0 then 0 else lo - 1, hi - 1, s[1..]);
        DigitStep(lo, hi, s);
        AllDigitsStep(s);
      } else {
        forall k | 0 <= k <= |s| ensures !Matches(Digit(), s[..k]) {
        }
      }
    }
  }

  /** When every match of `a` has length `n`, a match of `a` then `b` splits at `n`. */
  lemma CatFixed(a: Regex, b: Regex, n: nat, s: string)
    requires forall t :: Matches(a, t) ==> |t| == n
    ensures Matches(Cat(a, b), s) <==> n <= |s| && Matches(a, s[..n]) && Matches(b, s[n..])
  {
    if Matches(Cat(a, b), s) {
      var k :| 0 <= k <= |s| && Matches(a, s[..k]) && Matches(b, s[k..]);
      assert |s[..k]| == n;
    }
  }

  /** `x?` holds of the empty string and of the matches of `x`. */
  lemma Optional(a: Regex, s: string)
    ensures Matches(Repeat(a, 0, 1), s) <==> s == [] || Matches(a, s)
  {
    if s != [] && Matches(a, s) {
      assert s[..|s|] == s && s[|s|..] == [];
      assert Matches(Repeat(a, 0, 0), s[|s|..]);
    }
    if s != [] && Matches(Repeat(a, 0, 1), s) {
      var k :| 0 <= k <= |s| && Matches(a, s[..k]) && Matches(Repeat(a, 0, 0), s[k..]);
      assert s[k..] == [];
      assert s[..k] == s;
    }
  }
}
