/** Decimal notation of a natural number, and reading it back. */
module Decimal {

  predicate Digit(ch: char) { '0' <= ch <= '9' }

  predicate Digits(s: string) {
    forall i :: 0 <= i < |s| ==> Digit(s[i])
  }

  function Show(n: nat): (r: string)
    ensures r != [] && Digits(r)
  {
    var digit := ['0' + (n % 10) as char];
    if n < 10 then digit else Show(n / 10) + digit
  }

  function Read(s: string): nat
    requires Digits(s)
  {
    if s == [] then 0 else Read(s[..|s| - 1]) * 10 + (s[|s| - 1] - '0') as nat
  }

  function Pow10(k: nat): nat {
    if k == 0 then 1 else 10 * Pow10(k - 1)
  }

  lemma {:induction false} ReadShow(n: nat)
    ensures Read(Show(n)) == n
  {
    var r := Show(n);
    if n < 10 {
      assert r[..0] == [];
    } else {
      ReadShow(n / 10);
      assert r[..|r| - 1] == Show(n / 10);
    }
  }

  lemma {:induction false} ShowLength(n: nat, k: nat)
    requires k >= 1 && n < Pow10(k)
    ensures |Show(n)| <= k
    decreases k
  {
    if n >= 10 {
      ShowLength(n / 10, k - 1);
    }
  }

  /** `padStart(n, '0')` */
  function PadStart(s: string, n: nat): (r: string)
    decreases n - |s|
  {
    if |s| >= n then s else PadStart("0" + s, n)
  }

  lemma {:induction false} ReadZero(s: string)
    requires Digits(s)
    ensures Read("0" + s) == Read(s)
  {
    if s == [] {
      assert "0"[..0] == [];
    } else {
      var t := s[..|s| - 1];
      ReadZero(t);
      assert ("0" + s)[..|s|] == "0" + t;
    }
  }

  /** Padding with zeros fills up to the width and keeps the number. */
  lemma {:induction false} PadKeepsNumber(s: string, n: nat)
    requires Digits(s) && |s| <= n
    ensures |PadStart(s, n)| == n && Digits(PadStart(s, n)) && Read(PadStart(s, n)) == Read(s)
    decreases n - |s|
  {
    if |s| < n {
      ReadZero(s);
      PadKeepsNumber("0" + s, n);
    }
  }
}
