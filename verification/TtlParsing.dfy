/** `parseTtlToSeconds` */
module TtlParsing {
  import opened Wrappers
  import opened Decimal

  function Factor(unit: char): Option<nat> {
    match unit
    case 's' => Some(1)
    case 'm' => Some(60)
    case 'h' => Some(3600)
    case 'd' => Some(86400)
    case 'w' => Some(604800)
    case _ => None
  }

  function ParseTtl(ttl: string): Option<nat> {
    if ttl == [] then None
    else if Digits(ttl) then Some(Read(ttl))
    else
      var value, unit := ttl[..|ttl| - 1], ttl[|ttl| - 1];
      if value != [] && Digits(value) && Factor(unit).Some? then Some(Read(value) * Factor(unit).value) else None
  }

  /** Every number of seconds and every number with a unit is read as what it says. */
  lemma ParseReadsBack(n: nat, unit: char)
    ensures ParseTtl(Show(n)) == Some(n)
    ensures Factor(unit).Some? ==> ParseTtl(Show(n) + [unit]) == Some(n * Factor(unit).value)
  {
    ReadShow(n);
    var ttl := Show(n) + [unit];
    assert ttl[..|ttl| - 1] == Show(n);
    assert ttl[|ttl| - 1] == unit;
  }

  /** How many seconds a unit stands for. */
  ghost predicate Unit(unit: char, seconds: nat) {
    || (unit == 's' && seconds == 1)
    || (unit == 'm' && seconds == 60)
    || (unit == 'h' && seconds == 60 * 60)
    || (unit == 'd' && seconds == 24 * 60 * 60)
    || (unit == 'w' && seconds == 7 * 24 * 60 * 60)
  }

  /** Exactly the texts that are read, and as what: a number, or a number followed by one of the five units. */
  lemma ParseIff(ttl: string, n: nat)
    ensures ParseTtl(ttl) == Some(n) <==>
            || (ttl != "" && Digits(ttl) && Read(ttl) == n)
            || (exists value: string, unit: char, seconds: nat ::
                  ttl == value + [unit] && value != "" && Digits(value) && Unit(unit, seconds)
                  && Read(value) * seconds == n)
  {
    if exists value: string, unit: char, seconds: nat :: ttl == value + [unit] && value != "" && Digits(value)
         && Unit(unit, seconds) && Read(value) * seconds == n {
      var value: string, unit: char, seconds: nat :| ttl == value + [unit] && value != "" && Digits(value)
        && Unit(unit, seconds) && Read(value) * seconds == n;
      assert ttl[..|ttl| - 1] == value && ttl[|ttl| - 1] == unit;
      assert Factor(unit) == Some(seconds);
    }
    if ParseTtl(ttl) == Some(n) && !Digits(ttl) {
      var value, unit := ttl[..|ttl| - 1], ttl[|ttl| - 1];
      assert ttl == value + [unit];
      assert Unit(unit, Factor(unit).value) && Read(value) * Factor(unit).value == n;
    }
  }
}
