/** `generateOtpCode`: rejection sampling of 32-bit draws. */
module TokenUtilities {
  import opened Wrappers
  import opened Decimal

  const CODES := 1000000

  const WORDS := 0x1_0000_0000

  /** The largest multiple of the number of codes not above the largest draw. */
  const MAX := (WORDS - 1) / CODES * CODES

  type Word = n: int | 0 <= n < WORDS

  function CodeOf(n: nat): string {
    PadStart(Show(n % CODES), 6)
  }

  /** The code made from the first draw below the bound; none when the draws run out first. */
  function FirstCode(draws: seq<Word>): Option<string> {
    if draws == [] then None
    else if draws[0] < MAX then Some(CodeOf(draws[0]))
    else FirstCode(draws[1..])
  }

  /** The do/while loop over a supply of random draws. */
  method GenerateOtpCode(draws: seq<Word>) returns (code: Option<string>)
    ensures code == FirstCode(draws)
  {
    var i := 0;
    while i < |draws|
      invariant 0 <= i <= |draws| && FirstCode(draws) == FirstCode(draws[i..])
    {
      var n := draws[i];
      i := i + 1;
      if n < MAX { return Some(CodeOf(n)); }
    }
    return None;
  }

  /** The code is made from a draw below the bound, all earlier ones being at or above it; and there is none without one. */
  lemma {:induction false} FirstCodeIff(draws: seq<Word>)
    ensures FirstCode(draws) == None <==> forall i: nat :: i < |draws| ==> draws[i] >= 4294000000
    ensures FirstCode(draws).Some? ==>
              exists i: nat :: i < |draws| && Accepts(draws, i) && FirstCode(draws) == Some(CodeOf(draws[i]))
  {
    assert MAX == 4294000000;
    if draws != [] {
      if draws[0] < MAX {
        assert Accepts(draws, 0);
      } else {
        FirstCodeIff(draws[1..]);
        assert forall i: nat :: 0 < i < |draws| ==> draws[i] == draws[1..][i - 1];
        if FirstCode(draws).Some? {
          var i: nat :| i < |draws[1..]| && Accepts(draws[1..], i) && FirstCode(draws[1..]) == Some(CodeOf(draws[1..][i]));
          assert Accepts(draws, i + 1);
        }
      }
    }
  }

  /** Draw `i` is the first one below the bound. */
  ghost predicate Accepts(draws: seq<Word>, i: nat) {
    i < |draws| && draws[i] < 4294000000 && forall j :: 0 <= j < i ==> draws[j] >= 4294000000
  }

  /** A code has six digits, and read as a number it is the draw modulo 1,000,000. */
  lemma CodeReadsBack(n: nat)
    ensures |CodeOf(n)| == 6 && Digits(CodeOf(n)) && Read(CodeOf(n)) == n % CODES
  {
    var k := n % CODES;
    assert Pow10(6) == CODES by {
      assert Pow10(2) == 100 && Pow10(4) == 10 * (10 * Pow10(2));
    }
    ShowLength(k, 6);
    ReadShow(k);
    PadKeepsNumber(Show(k), 6);
  }

  /** The draws below `q` million that give code `k`. */
  ghost function DrawsFor(k: nat, q: nat): set<int> {
    set n | 0 <= n < q * CODES && n % CODES == k
  }

  lemma {:induction false} OneDrawPerMillion(k: nat, q: nat)
    requires k < CODES
    ensures |DrawsFor(k, q)| == q
  {
    if q == 0 {
      assert DrawsFor(k, q) == {};
    } else {
      OneDrawPerMillion(k, q - 1);
      var n := (q - 1) * CODES + k;
      assert DrawsFor(k, q) == DrawsFor(k, q - 1) + {n};
    }
  }

  /** Two draws give one code iff they agree modulo 1,000,000. */
  lemma SameCode(n: nat, k: nat)
    ensures CodeOf(n) == CodeOf(k) <==> n % CODES == k % CODES
  {
    CodeReadsBack(n);
    CodeReadsBack(k);
  }

  /** Unbiased: exactly 4294 of the accepted draws give each of the million codes. */
  lemma EveryCodeEquallyLikely(k: nat)
    requires k < CODES
    ensures |set n: int | 0 <= n < MAX && CodeOf(n) == CodeOf(k)| == 4294
  {
    var preimages := set n: int | 0 <= n < MAX && CodeOf(n) == CodeOf(k);
    forall n: int ensures n in preimages <==> n in DrawsFor(k, 4294) {
      if n >= 0 { SameCode(n, k); }
    }
    OneDrawPerMillion(k, 4294);
    assert preimages == DrawsFor(k, 4294);
  }
}
