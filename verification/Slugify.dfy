/**
 `slugify`: the words of a name joined by dashes, and cut at a cap.

 Lower-casing, NFKD decomposition and the removal of combining marks are the
 parameter `fold`; nothing is asked of it except, where a slug is slugified again, that it
 leaves strings over a-z, 0-9 and the dash alone.
 */
module Slugify {

  const MAX_SLUG_LENGTH := 63
  const FALLBACK_SLUG := "tenant"

  predicate Alnum(ch: char) { 'a' <= ch <= 'z' || '0' <= ch <= '9' }

  /** The rest of `s` after its leading run of characters outside a-z and 0-9. */
  function SkipRun(s: string): (r: string)
    ensures |r| <= |s| && (r == [] || Alnum(r[0]))
  {
    if s == [] || Alnum(s[0]) then s else SkipRun(s[1..])
  }

  /** Every maximal run of other characters becomes one dash. */
  function Collapse(s: string): string
    decreases |s|
  {
    if s == [] then []
    else if Alnum(s[0]) then [s[0]] + Collapse(s[1..])
    else "-" + Collapse(SkipRun(s[1..]))
  }

  function TrimLeft(s: string): string {
    if s != [] && s[0] == '-' then TrimLeft(s[1..]) else s
  }

  function TrimRight(s: string): string {
    if s != [] && s[|s| - 1] == '-' then TrimRight(s[..|s| - 1]) else s
  }

  /** `slice(0, end)`: a negative end counts from the end of the string. */
  function Slice(s: string, end: int): string {
    if end < 0 then s[..if |s| + end < 0 then 0 else |s| + end]
    else s[..if end < |s| then end else |s|]
  }

  /** The slug before it is capped. */
  function Core(fold: string -> string, input: string): string {
    TrimRight(TrimLeft(Collapse(fold(input))))
  }

  function Slugify(fold: string -> string, input: string, maxLength: int): string {
    var core := Slice(Core(fold, input), maxLength);
    if |core| > 0 then core else FALLBACK_SLUG
  }

  // ---------------------------------------------------------------- the normal form

  predicate Plain(s: string) {
    forall ch <- s :: Alnum(ch) || ch == '-'
  }

  predicate NoDoubleDash(s: string) {
    forall i :: 0 <= i < |s| - 1 ==> s[i] != '-' || s[i + 1] != '-'
  }

  /** Over a-z, 0-9 and dash, no two dashes in a row, and no dash in front. */
  predicate Clean(s: string) {
    Plain(s) && NoDoubleDash(s) && (s != [] ==> s[0] != '-')
  }

  lemma {:induction false} CollapseForm(s: string)
    ensures Plain(Collapse(s)) && NoDoubleDash(Collapse(s))
    ensures s != [] && Alnum(s[0]) ==> Collapse(s) != [] && Collapse(s)[0] == s[0]
    decreases |s|
  {
    if s != [] {
      var rest := if Alnum(s[0]) then s[1..] else SkipRun(s[1..]);
      CollapseForm(rest);
    }
  }

  lemma {:induction false} TrimLeftForm(s: string)
    requires Plain(s) && NoDoubleDash(s)
    ensures Clean(TrimLeft(s))
  {
    if s != [] && s[0] == '-' { TrimLeftForm(s[1..]); }
  }

  lemma {:induction false} TrimRightForm(s: string)
    requires Clean(s)
    ensures Clean(TrimRight(s))
    ensures TrimRight(s) != [] ==> TrimRight(s)[|TrimRight(s)| - 1] != '-'
  {
    if s != [] && s[|s| - 1] == '-' { TrimRightForm(s[..|s| - 1]); }
  }

  lemma CoreForm(fold: string -> string, input: string)
    ensures
      var core := Core(fold, input);
      Clean(core) && (core != [] ==> core[|core| - 1] != '-')
  {
    var folded := fold(input);
    CollapseForm(folded);
    TrimLeftForm(Collapse(folded));
    TrimRightForm(TrimLeft(Collapse(folded)));
  }

  /** For every input and cap the slug is non-empty, clean and starts alphanumeric; and exactly when it fits the cap. */
  lemma SlugifyForm(fold: string -> string, input: string, maxLength: int)
    ensures
      var r := Slugify(fold, input, maxLength);
      && r != [] && Clean(r) && Alnum(r[0])
      && (maxLength >= 0 ==>
            (|r| <= maxLength <==> maxLength >= 6 || (maxLength >= 1 && Core(fold, input) != [])))
  {
    CoreForm(fold, input);
  }

  // ---------------------------------------------------------------- the words of a name

  /** The leading run of characters in a-z and 0-9. */
  function Run(s: string): (r: string)
    ensures |r| <= |s| && r == s[..|r|] && (forall ch <- r :: Alnum(ch))
    ensures |r| < |s| ==> !Alnum(s[|r|])
  {
    if s == [] || !Alnum(s[0]) then [] else [s[0]] + Run(s[1..])
  }

  /** The maximal runs of characters in a-z and 0-9, in order. */
  function Words(s: string): seq<string>
    decreases |s|
  {
    var t := SkipRun(s);
    if t == [] then [] else [Run(t)] + Words(t[|Run(t)|..])
  }

  function Join(words: seq<string>): string {
    if words == [] then [] else if |words| == 1 then words[0] else words[0] + "-" + Join(words[1..])
  }

  lemma {:induction false} CollapseAppend(s: string, t: string)
    requires forall ch <- s :: Alnum(ch)
    ensures Collapse(s + t) == s + Collapse(t)
  {
    if s == [] {
      assert s + t == t;
    } else {
      assert (s + t)[1..] == s[1..] + t;
      CollapseAppend(s[1..], t);
    }
  }

  lemma TrimRightPlain(s: string, dashes: string)
    requires s != [] && s[|s| - 1] != '-' && dashes in {"", "-"}
    ensures TrimRight(s + dashes) == s
  {
    var t := s + dashes;
    if dashes == "" {
      assert t == s;
    } else {
      assert t[|t| - 1] == '-' && t[..|t| - 1] == s;
      assert TrimRight(t) == TrimRight(s);
    }
  }

  /** Non-empty, with no dash at either end. */
  predicate Trimmed(s: string) {
    s != [] && s[0] != '-' && s[|s| - 1] != '-'
  }

  lemma CollapseRun(s: string)
    ensures Collapse(s) == Run(s) + Collapse(s[|Run(s)|..])
  {
    var run, rest := Run(s), s[|Run(s)|..];
    assert s == run + rest;
    CollapseAppend(run, rest);
  }

  lemma FirstWord(s: string)
    requires s != [] && Alnum(s[0])
    ensures
      var run := Run(s);
      && Trimmed(run) && Words(s) == [run] + Words(s[|run|..])
      && Collapse(s) == run + Collapse(s[|run|..])
  {
    CollapseRun(s);
    assert SkipRun(s) == s;
  }

  lemma LaterWords(s: string)
    requires s != [] && !Alnum(s[0])
    ensures Words(s) == Words(SkipRun(s)) && Collapse(s) == "-" + Collapse(SkipRun(s))
  {
  }

  lemma DashesLast(word: string, rest: string, dashes: string)
    ensures word + ("-" + (rest + dashes)) == word + "-" + rest + dashes
  {
  }

  /** From its first word on, a collapsed string is its words with dashes between, and a dash for what follows them. */
  lemma {:induction false} CollapseJoins(s: string) returns (dashes: string)
    requires s != [] && Alnum(s[0])
    ensures Words(s) != [] && Trimmed(Join(Words(s)))
    ensures Collapse(s) == Join(Words(s)) + dashes && dashes in {"", "-"}
    decreases |s|
  {
    var run := Run(s);
    var rest := s[|run|..];
    FirstWord(s);
    if rest == [] {
      dashes := "";
    } else {
      var next := SkipRun(rest);
      LaterWords(rest);
      if next == [] {
        dashes := "-";
      } else {
        dashes := CollapseJoins(next);
        DashesLast(run, Join(Words(next)), dashes);
      }
    }
  }

  /** An independent account of the slug before the cap: the words of the folded input, joined by single dashes. */
  lemma CoreIsWordsJoined(fold: string -> string, input: string)
    ensures Core(fold, input) == Join(Words(fold(input)))
  {
    var s := fold(input);
    var t := SkipRun(s);
    if t == [] {
      NoWords(s);
    } else {
      var dashes := CollapseJoins(t);
      assert Words(s) == Words(t);
      TrimRightPlain(Join(Words(t)), dashes);
      assert TrimLeft(Collapse(t)) == Collapse(t);
      if t != s {
        assert Collapse(s) == "-" + Collapse(t);
        assert ("-" + Collapse(t))[1..] == Collapse(t);
      }
    }
  }

  lemma NoWords(s: string)
    requires SkipRun(s) == []
    ensures Collapse(s) in {"", "-"} && TrimLeft(Collapse(s)) == ""
  {
    if s != [] {
      assert Collapse(s) == "-" + Collapse([]);
      assert Collapse(s) == "-" && "-"[1..] == "";
    }
  }

  // ---------------------------------------------------------------- applying it again

  lemma {:induction false} CollapseClean(s: string)
    requires Clean(s)
    ensures Collapse(s) == s
    decreases |s|
  {
    if s != [] {
      assert s == [s[0]] + s[1..];
      if |s| > 1 && s[1] == '-' {
        CollapseDashed(s[1..]);
      } else {
        CollapseClean(s[1..]);
      }
    }
  }

  lemma {:induction false} CollapseDashed(s: string)
    requires Plain(s) && NoDoubleDash(s) && s != [] && s[0] == '-'
    ensures Collapse(s) == s
    decreases |s|
  {
    assert s == "-" + s[1..];
    assert SkipRun(s[1..]) == s[1..];
    CollapseClean(s[1..]);
  }

  /** Slugifying a clean string removes at most one trailing dash. */
  lemma CoreOfClean(fold: string -> string, s: string)
    requires Clean(s) && s != [] && fold(s) == s
    ensures Core(fold, s) == if s[|s| - 1] == '-' then s[..|s| - 1] else s
  {
    CollapseClean(s);
    if s[|s| - 1] == '-' {
      var t := s[..|s| - 1];
      assert t != [] && t[|t| - 1] != '-';
      assert TrimRight(t) == t;
    }
  }

  lemma SlugifyClean(fold: string -> string, s: string, maxLength: int)
    requires Clean(s) && s != [] && fold(s) == s && |s| <= maxLength
    ensures Slugify(fold, s, maxLength) == if s[|s| - 1] == '-' then s[..|s| - 1] else s
  {
    CoreOfClean(fold, s);
    assert Alnum(s[0]);
    var core := Core(fold, s);
    assert Slice(core, maxLength) == core;
  }

  /**
   A second application drops one dash left by the cap and nothing else, a third changes
   nothing; and exactly when the first application was already final.
   */
  lemma SlugifyAgain(fold: string -> string, input: string, maxLength: int)
    requires maxLength >= 6
    requires forall s :: Plain(s) ==> fold(s) == s
    ensures
      var once := Slugify(fold, input, maxLength);
      var twice := Slugify(fold, once, maxLength);
      && twice == (if once[|once| - 1] == '-' then once[..|once| - 1] else once)
      && Slugify(fold, twice, maxLength) == twice
    ensures
      var once := Slugify(fold, input, maxLength);
      var core := Core(fold, input);
      Slugify(fold, once, maxLength) == once <==> !(|core| > maxLength && core[maxLength - 1] == '-')
  {
    var once := Slugify(fold, input, maxLength);
    SlugifyForm(fold, input, maxLength);
    SlugifyClean(fold, once, maxLength);
    var twice := Slugify(fold, once, maxLength);
    assert Clean(twice) && twice != [] && twice[|twice| - 1] != '-';
    SlugifyClean(fold, twice, maxLength);
    CoreForm(fold, input);
  }

  const CUT_NAME := "aaaaa" + " b"

  lemma CutNameCore()
    ensures Core(s => s, CUT_NAME) == "aaaaa-b"
  {
    CollapseAppend("aaaaa", " b");
    assert " b"[1..] == "b" && SkipRun("b") == "b";
    CollapseClean("b");
    assert Collapse(CUT_NAME) == "aaaaa-b";
  }

  /** Two words that meet at the cap: the slug ends in a dash, so slugify is not idempotent. */
  lemma TruncationLeavesDash()
    ensures Slugify(s => s, CUT_NAME, 6) == "aaaaa-"
    ensures Slugify(s => s, "aaaaa-", 6) == "aaaaa"
  {
    CutNameCore();
    SlugifyClean(s => s, "aaaaa-", 6);
  }

  // ---------------------------------------------------------------- the slug of a name

  /** The characters of `s` in a-z and 0-9, in order. */
  function Letters(s: string): string {
    if s == [] then []
    else if 'a' <= s[0] <= 'z' || '0' <= s[0] <= '9' then [s[0]] + Letters(s[1..])
    else Letters(s[1..])
  }

  lemma {:induction false} LettersAppend(s: string, t: string)
    ensures Letters(s + t) == Letters(s) + Letters(t)
  {
    if s == [] {
      assert s + t == t;
    } else {
      LettersAppend(s[1..], t);
      assert (s + t)[1..] == s[1..] + t;
    }
  }

  lemma {:induction false} SkipRunKeepsLetters(s: string)
    ensures Letters(SkipRun(s)) == Letters(s)
  {
    if s != [] && !Alnum(s[0]) { SkipRunKeepsLetters(s[1..]); }
  }

  lemma {:induction false} JoinKeepsLetters(s: string)
    ensures Letters(Join(Words(s))) == Letters(s)
    decreases |s|
  {
    var t := SkipRun(s);
    SkipRunKeepsLetters(s);
    if t != [] {
      var run, rest := Run(t), t[|Run(t)|..];
      assert t == run + rest && Words(s) == [run] + Words(rest);
      LettersAppend(run, rest);
      JoinKeepsLetters(rest);
      if Words(rest) == [] {
        assert Words(s) == [run];
        LettersAppend(run, []);
      } else {
        LettersAppend(run + "-", Join(Words(rest)));
        LettersAppend(run, "-");
      }
    }
  }

  /**
   What a slug is made of: for a cap of at least one, when the folded input has a letter or a
   digit, the first characters up to the cap of its letters and digits with single dashes in
   between; otherwise the fallback. Before the cap no letter or digit is lost, added or moved.
   */
  lemma SlugIsCut(fold: string -> string, input: string, maxLength: nat)
    requires maxLength >= 1
    ensures
      var core, r := Core(fold, input), Slugify(fold, input, maxLength);
      && Letters(core) == Letters(fold(input))
      && (forall i :: 0 <= i < |core| ==> 'a' <= core[i] <= 'z' || '0' <= core[i] <= '9' || core[i] == '-')
      && (forall i :: 0 <= i < |core| && core[i] == '-' ==> 0 < i < |core| - 1 && core[i + 1] != '-')
      && (if Letters(fold(input)) == [] then r == "tenant"
          else |r| == (if |core| < maxLength then |core| else maxLength) && r == core[..|r|])
  {
    CoreIsWordsJoined(fold, input);
    JoinKeepsLetters(fold(input));
    CoreForm(fold, input);
    var core := Core(fold, input);
    forall i | 0 <= i < |core| ensures 'a' <= core[i] <= 'z' || '0' <= core[i] <= '9' || core[i] == '-' {
      assert core[i] in core;
    }
    if core != [] {
      assert Alnum(core[0]);
      assert Letters(core) != [];
    }
  }
}
