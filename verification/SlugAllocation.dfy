/**
 Slug allocation: `createWithSlugRetry` split at its awaits (probe, then insert under the
 unique index), with any number of creators, renames and tenant deletions interleaved.

 A creator tries its candidates in order and gives up after the hundredth. The unique index
 covers deleted tenants too, so a deletion frees no slug; a rename does. A creator that
 loses the race for a candidate goes on with the next one.
 */
module SlugAllocation {
  import opened Wrappers
  import opened Decimal
  import Slugify
  import Tenancy

  const MAX_SLUG_SUFFIX_ATTEMPTS := 100

  const MAX_BASE_SLUG_LENGTH := Slugify.MAX_SLUG_LENGTH - 4

  type Tenants = seq<Tenancy.Tenant>

  /** Candidate 1 is the base itself; the others carry their number. */
  function Candidate(base: string, k: nat): string {
    if k <= 1 then base else base + "-" + Show(k)
  }

  function CappedSlugify(fold: string -> string, input: string): string {
    Slugify.Slugify(fold, input, MAX_BASE_SLUG_LENGTH)
  }

  /** The unique index on `slug` covers deleted tenants too. */
  predicate Taken(tenants: Tenants, slug: string) {
    exists t <- tenants :: t.slug == slug
  }

  ghost predicate DistinctSlugs(tenants: Tenants) {
    forall i, j :: 0 <= i < j < |tenants| ==> tenants[i].slug != tenants[j].slug
  }

  // ---------------------------------------------------------------- the candidates

  lemma CandidateFits(fold: string -> string, input: string, k: nat)
    requires k <= MAX_SLUG_SUFFIX_ATTEMPTS
    ensures 1 <= |Candidate(CappedSlugify(fold, input), k)| <= Slugify.MAX_SLUG_LENGTH
  {
    Slugify.SlugifyForm(fold, input, MAX_BASE_SLUG_LENGTH);
    ShowLength(k, 3);
  }

  /** The hundred candidates are a hundred different slugs. */
  lemma CandidatesDiffer(base: string, j: nat, k: nat)
    requires 1 <= j < k
    ensures Candidate(base, j) != Candidate(base, k)
  {
    assert |base + "-" + Show(k)| > |base|;
    if j > 1 && Candidate(base, j) == Candidate(base, k) {
      assert (base + "-" + Show(j))[|base| + 1..] == Show(j);
      assert (base + "-" + Show(k))[|base| + 1..] == Show(k);
      ReadShow(j);
      ReadShow(k);
    }
  }

  /** The candidates of a base: itself, then the base, a dash and the number in decimal. */
  lemma CandidateMeans(base: string, k: nat)
    ensures k <= 1 ==> Candidate(base, k) == base
    ensures k >= 2 ==>
              var c := Candidate(base, k);
              && |c| > |base| + 1 && c[..|base| + 1] == base + "-"
              && Digits(c[|base| + 1..]) && Read(c[|base| + 1..]) == k
    ensures Candidate("acme", 2) == "acme-2" && Candidate("acme", 100) == "acme-100"
  {
    if k >= 2 {
      var c := Candidate(base, k);
      ReadShow(k);
      assert c[|base| + 1..] == Show(k);
    }
    assert Show(100) == Show(10) + "0" && Show(10) == Show(1) + "0";
  }

  /** A suffixed candidate is in slug form exactly when the base does not end in a dash, which its cap can leave. */
  lemma CandidateForm(fold: string -> string, input: string, k: nat)
    requires k >= 2
    ensures
      var base := CappedSlugify(fold, input);
      Slugify.Clean(Candidate(base, k)) <==> base[|base| - 1] != '-'
  {
    var base := CappedSlugify(fold, input);
    Slugify.SlugifyForm(fold, input, MAX_BASE_SLUG_LENGTH);
    var c := Candidate(base, k);
    assert c[|base|] == '-' && c[|base| - 1] == base[|base| - 1];
    var digits := Show(k);
    forall i | 0 <= i < |c| ensures Slugify.Alnum(c[i]) || c[i] == '-' {
      assert i < |base| ==> c[i] == base[i] && base[i] in base;
      assert i > |base| ==> c[i] == digits[i - |base| - 1] && digits[i - |base| - 1] in digits;
    }
    if base[|base| - 1] != '-' {
      forall i | 0 <= i < |c| - 1 ensures c[i] != '-' || c[i + 1] != '-' {
        assert i >= |base| ==> c[i + 1] == digits[i - |base|] && digits[i - |base|] in digits;
        assert i < |base| - 1 ==> c[i] == base[i] && c[i + 1] == base[i + 1];
      }
      assert c[0] == base[0];
    }
  }

  // ---------------------------------------------------------------- the machine

  /** Where a creator is: about to look candidate `k` up, about to insert it, or done. */
  datatype Creator =
    | Idle
    | Probing(name: string, base: string, k: nat)
    | Inserting(name: string, base: string, k: nat)
    | Created(base: string, k: nat, id: nat)
    | Exhausted(base: string)

  datatype State = State(tenants: Tenants, creators: map<nat, Creator>)

  datatype Step =
    | Start(who: nat, name: string, slug: Option<string>)
    | Probe(who: nat)
    | Insert(who: nat)
    | Rename(id: nat, desired: string)
    | Delete(id: nat, at: int)

  function CreatorOf(st: State, who: nat): Creator {
    if who in st.creators then st.creators[who] else Idle
  }

  function Put(st: State, who: nat, c: Creator): State {
    st.(creators := st.creators[who := c])
  }

  /** The next candidate, or the error after the last one. */
  function Onward(name: string, base: string, k: nat): Creator {
    if k < MAX_SLUG_SUFFIX_ATTEMPTS then Probing(name, base, k + 1) else Exhausted(base)
  }

  function Next(fold: string -> string, st: State, step: Step): State {
    match step
    case Start(who, name, slug) =>
      if !CreatorOf(st, who).Idle? then st
      else Put(st, who, Probing(name, CappedSlugify(fold, if slug.Some? then slug.value else name), 1))
    case Probe(who) =>
      var c := CreatorOf(st, who);
      if !c.Probing? then st
      else if Taken(st.tenants, Candidate(c.base, c.k)) then Put(st, who, Onward(c.name, c.base, c.k))
      else Put(st, who, Inserting(c.name, c.base, c.k))
    case Insert(who) =>
      var c := CreatorOf(st, who);
      if !c.Inserting? then st
      else if Taken(st.tenants, Candidate(c.base, c.k)) then Put(st, who, Onward(c.name, c.base, c.k))
      else
        Put(st, who, Created(c.base, c.k, |st.tenants|)).(
        tenants := st.tenants + [Tenancy.Tenant(Candidate(c.base, c.k), c.name, None)])
    case Rename(id, slug) =>
      var desired := CappedSlugify(fold, slug);
      if id >= |st.tenants| || st.tenants[id].deletedAt.Some? || Taken(st.tenants, desired) then st
      else st.(tenants := st.tenants[id := st.tenants[id].(slug := desired)])
    case Delete(id, at) =>
      if id >= |st.tenants| || st.tenants[id].deletedAt.Some? then st
      else st.(tenants := st.tenants[id := st.tenants[id].(deletedAt := Some(at))])
  }

  function Run(fold: string -> string, st: State, steps: seq<Step>): State
    decreases |steps|
  {
    if steps == [] then st else Run(fold, Next(fold, st, steps[0]), steps[1..])
  }

  ghost predicate Bounded(base: string, k: nat) {
    1 <= k <= MAX_SLUG_SUFFIX_ATTEMPTS && 1 <= |base| <= MAX_BASE_SLUG_LENGTH
  }

  /** A creator's place is within the candidates; a created row lies beyond the first `n0`. */
  ghost predicate CreatorOk(st: State, n0: nat, c: Creator) {
    match c
    case Probing(_, base, k) => Bounded(base, k)
    case Inserting(_, base, k) => Bounded(base, k)
    case Created(base, k, id) => Bounded(base, k) && n0 <= id < |st.tenants|
    case _ => true
  }

  /** `who` made row `id`. */
  ghost predicate Made(st: State, who: nat, id: nat) {
    CreatorOf(st, who).Created? && CreatorOf(st, who).id == id
  }

  ghost predicate HasMaker(st: State, id: nat) {
    exists who: nat :: Made(st, who, id)
  }

  /** Every row beyond the first `n0` was made by exactly one creator, and no creator made two. */
  ghost predicate OneEach(st: State, n0: nat) {
    && (forall id: nat :: n0 <= id < |st.tenants| ==> HasMaker(st, id))
    && (forall a: nat, b: nat, id: nat :: Made(st, a, id) && Made(st, b, id) ==> a == b)
  }

  ghost predicate Inv(st: State, n0: nat) {
    && n0 <= |st.tenants|
    && DistinctSlugs(st.tenants)
    && (forall who: nat :: CreatorOk(st, n0, CreatorOf(st, who)))
    && OneEach(st, n0)
  }

  lemma MoveKeeps(st: State, n0: nat, who: nat, c: Creator)
    requires Inv(st, n0) && !CreatorOf(st, who).Created? && !c.Created? && CreatorOk(st, n0, c)
    ensures Inv(Put(st, who, c), n0)
  {
    var st' := Put(st, who, c);
    forall a: nat, id: nat ensures Made(st', a, id) <==> Made(st, a, id) {}
    forall id: nat | HasMaker(st, id) ensures HasMaker(st', id) {
      var a: nat :| Made(st, a, id);
      assert Made(st', a, id);
    }
    forall a: nat ensures CreatorOk(st', n0, CreatorOf(st', a)) {
      assert CreatorOk(st, n0, CreatorOf(st, a));
    }
  }

  lemma InsertKeeps(st: State, n0: nat, who: nat, base: string, k: nat, row: Tenancy.Tenant)
    requires Inv(st, n0) && Bounded(base, k) && !CreatorOf(st, who).Created? && !Taken(st.tenants, row.slug)
    ensures Inv(Put(st, who, Created(base, k, |st.tenants|)).(tenants := st.tenants + [row]), n0)
  {
    var st' := Put(st, who, Created(base, k, |st.tenants|)).(tenants := st.tenants + [row]);
    forall a: nat, id: nat ensures Made(st', a, id) <==> Made(st, a, id) || (a == who && id == |st.tenants|) {}
    forall a: nat ensures CreatorOk(st', n0, CreatorOf(st', a)) {
      assert CreatorOk(st, n0, CreatorOf(st, a));
    }
    forall id: nat | n0 <= id < |st'.tenants| ensures HasMaker(st', id) {
      if id < |st.tenants| {
        assert HasMaker(st, id);
        var a: nat :| Made(st, a, id);
        assert Made(st', a, id);
      } else {
        assert Made(st', who, id);
      }
    }
    forall a: nat ensures !Made(st, a, |st.tenants|) {
      assert CreatorOk(st, n0, CreatorOf(st, a));
    }
  }

  lemma RowUpdateKeeps(st: State, n0: nat, id: nat, row: Tenancy.Tenant)
    requires Inv(st, n0) && id < |st.tenants|
    requires row.slug == st.tenants[id].slug || !Taken(st.tenants, row.slug)
    ensures Inv(st.(tenants := st.tenants[id := row]), n0)
  {
    var st' := st.(tenants := st.tenants[id := row]);
    forall a: nat, i: nat ensures Made(st', a, i) <==> Made(st, a, i) {}
    forall i: nat | HasMaker(st, i) ensures HasMaker(st', i) {
      var a: nat :| Made(st, a, i);
      assert Made(st', a, i);
    }
    assert DistinctSlugs(st'.tenants) by {
      forall i, j | 0 <= i < j < |st.tenants| ensures st'.tenants[i].slug != st'.tenants[j].slug {
        assert st.tenants[i] in st.tenants && st.tenants[j] in st.tenants;
      }
    }
    forall a: nat ensures CreatorOk(st', n0, CreatorOf(st', a)) {
      assert CreatorOk(st, n0, CreatorOf(st, a));
    }
  }

  lemma NextKeeps(fold: string -> string, st: State, n0: nat, step: Step)
    requires Inv(st, n0)
    ensures Inv(Next(fold, st, step), n0)
  {
    match step {
      case Start(who, name, slug) =>
        var input := if slug.Some? then slug.value else name;
        Slugify.SlugifyForm(fold, input, MAX_BASE_SLUG_LENGTH);
        if CreatorOf(st, who).Idle? {
          MoveKeeps(st, n0, who, Probing(name, CappedSlugify(fold, input), 1));
        }
      case Probe(who) =>
        var c := CreatorOf(st, who);
        assert CreatorOk(st, n0, c);
        if c.Probing? {
          if Taken(st.tenants, Candidate(c.base, c.k)) { MoveKeeps(st, n0, who, Onward(c.name, c.base, c.k)); }
          else { MoveKeeps(st, n0, who, Inserting(c.name, c.base, c.k)); }
        }
      case Insert(who) =>
        var c := CreatorOf(st, who);
        assert CreatorOk(st, n0, c);
        if c.Inserting? {
          if Taken(st.tenants, Candidate(c.base, c.k)) { MoveKeeps(st, n0, who, Onward(c.name, c.base, c.k)); }
          else { InsertKeeps(st, n0, who, c.base, c.k, Tenancy.Tenant(Candidate(c.base, c.k), c.name, None)); }
        }
      case Rename(id, slug) =>
        if id < |st.tenants| && st.tenants[id].deletedAt.None? && !Taken(st.tenants, CappedSlugify(fold, slug)) {
          RowUpdateKeeps(st, n0, id, st.tenants[id].(slug := CappedSlugify(fold, slug)));
        }
      case Delete(id, at) =>
        if id < |st.tenants| { RowUpdateKeeps(st, n0, id, st.tenants[id].(deletedAt := Some(at))); }
    }
  }

  lemma {:induction false} RunKeeps(fold: string -> string, st: State, n0: nat, steps: seq<Step>)
    requires Inv(st, n0)
    ensures Inv(Run(fold, st, steps), n0)
    decreases |steps|
  {
    if steps != [] {
      NextKeeps(fold, st, n0, steps[0]);
      RunKeeps(fold, Next(fold, st, steps[0]), n0, steps[1..]);
    }
  }

  /**
   In every reachable state slugs over live and deleted tenants are pairwise distinct, and
   each new row was inserted by exactly one creator, which inserted no other.
   */
  lemma SlugsStayDistinct(fold: string -> string, st: State, steps: seq<Step>)
    requires DistinctSlugs(st.tenants) && st.creators == map[]
    ensures
      var st' := Run(fold, st, steps);
      DistinctSlugs(st'.tenants) && OneEach(st', |st.tenants|)
  {
    RunKeeps(fold, st, |st.tenants|, steps);
  }

  /** How many of its own steps a creator can still take. */
  function Left(c: Creator): int {
    match c
    case Probing(_, _, k) => 2 * (MAX_SLUG_SUFFIX_ATTEMPTS - k) + 2
    case Inserting(_, _, k) => 2 * (MAX_SLUG_SUFFIX_ATTEMPTS - k) + 1
    case _ => 0
  }

  /** A create ends: its own probe or insert always brings it nearer the end, and nobody else's step moves it. */
  lemma CreatesEnd(fold: string -> string, st: State, n0: nat, step: Step, who: nat)
    requires Inv(st, n0) && !CreatorOf(st, who).Idle?
    ensures
      var c := CreatorOf(st, who);
      var c' := CreatorOf(Next(fold, st, step), who);
      && ((step == Probe(who) && c.Probing?) || (step == Insert(who) && c.Inserting?) ==> 0 <= Left(c') < Left(c))
      && (step != Probe(who) && step != Insert(who) ==> c' == c)
  {
    assert CreatorOk(st, n0, CreatorOf(st, who));
  }

  // ---------------------------------------------------------------- what a creator has found

  /** Every candidate before number `k` is taken. */
  ghost predicate TakenBelow(tenants: Tenants, base: string, k: nat) {
    forall j :: 1 <= j < k ==> Taken(tenants, Candidate(base, j))
  }

  /** The candidates a creator has passed are still taken, the last one by the row it made if it made one. */
  ghost predicate HonestFor(st: State, c: Creator) {
    match c
    case Idle => true
    case Probing(_, base, k) => TakenBelow(st.tenants, base, k)
    case Inserting(_, base, k) => TakenBelow(st.tenants, base, k)
    case Exhausted(base) => TakenBelow(st.tenants, base, MAX_SLUG_SUFFIX_ATTEMPTS + 1)
    case Created(base, k, id) =>
      && TakenBelow(st.tenants, base, k)
      && id < |st.tenants| && st.tenants[id].slug == Candidate(base, k)
  }

  ghost predicate Honest(st: State) {
    forall who: nat :: HonestFor(st, CreatorOf(st, who))
  }

  /** Creator `c` has passed its candidate `j`, which is `slug`. */
  predicate PassedAt(c: Creator, j: nat, slug: string) {
    && 1 <= j
    && match c
       case Idle => false
       case Probing(_, base, k) => j < k && Candidate(base, j) == slug
       case Inserting(_, base, k) => j < k && Candidate(base, j) == slug
       case Exhausted(base) => j <= MAX_SLUG_SUFFIX_ATTEMPTS && Candidate(base, j) == slug
       case Created(base, k, _) => j <= k && Candidate(base, j) == slug
  }

  /** Some creator has passed `slug`. */
  ghost predicate Passed(st: State, slug: string) {
    exists who: nat, j: nat :: PassedAt(CreatorOf(st, who), j, slug)
  }

  /** A rename that takes effect, moving a row off a slug that some creator has passed. */
  ghost predicate Vacates(fold: string -> string, st: State, step: Step) {
    && step.Rename?
    && step.id < |st.tenants| && st.tenants[step.id].deletedAt.None?
    && !Taken(st.tenants, CappedSlugify(fold, step.desired))
    && Passed(st, st.tenants[step.id].slug)
  }

  /** Every slug that was taken is taken still. */
  ghost predicate KeepsTaken(tenants: Tenants, tenants': Tenants) {
    forall slug :: Taken(tenants, slug) ==> Taken(tenants', slug)
  }

  lemma StillHonest(st: State, st': State, c: Creator)
    requires HonestFor(st, c) && KeepsTaken(st.tenants, st'.tenants)
    requires c.Created? ==> c.id < |st'.tenants| && st'.tenants[c.id].slug == st.tenants[c.id].slug
    ensures HonestFor(st', c)
  {
  }

  lemma OnwardHonest(st: State, name: string, base: string, k: nat)
    requires TakenBelow(st.tenants, base, k) && Taken(st.tenants, Candidate(base, k)) && k <= MAX_SLUG_SUFFIX_ATTEMPTS
    ensures HonestFor(st, Onward(name, base, k))
  {
  }

  /** Rows only added, slugs only kept. */
  lemma StepGrows(fold: string -> string, st: State, step: Step)
    requires !step.Rename?
    ensures
      var tenants' := Next(fold, st, step).tenants;
      && |st.tenants| <= |tenants'|
      && (forall i :: 0 <= i < |st.tenants| ==> st.tenants[i].slug == tenants'[i].slug)
      && KeepsTaken(st.tenants, tenants')
  {
    var tenants' := Next(fold, st, step).tenants;
    forall slug | Taken(st.tenants, slug) ensures Taken(tenants', slug) {
      var i: nat :| i < |st.tenants| && st.tenants[i].slug == slug;
      assert tenants'[i] in tenants';
    }
  }

  lemma NextHonest(fold: string -> string, st: State, n0: nat, step: Step)
    requires Inv(st, n0) && Honest(st) && !step.Rename?
    ensures Honest(Next(fold, st, step))
  {
    var st' := Next(fold, st, step);
    StepGrows(fold, st, step);
    forall who: nat ensures HonestFor(st', CreatorOf(st', who)) {
      var c := CreatorOf(st, who);
      assert HonestFor(st, c) && CreatorOk(st, n0, c);
      if CreatorOf(st', who) == c {
        StillHonest(st, st', c);
      } else if step.Start? {
      } else if Taken(st.tenants, Candidate(c.base, c.k)) {
        OnwardHonest(st, c.name, c.base, c.k);
      } else if step.Insert? {
        var id := |st.tenants|;
        assert st'.tenants[id].slug == Candidate(c.base, c.k);
        StillHonest(st, st', c);
      }
    }
  }

  /** A rename frees the slug it leaves, and no other. */
  lemma RenameFrees(tenants: Tenants, id: nat, slug: string)
    requires DistinctSlugs(tenants) && id < |tenants| && !Taken(tenants, slug)
    ensures
      var tenants' := tenants[id := tenants[id].(slug := slug)];
      && !Taken(tenants', tenants[id].slug)
      && forall other :: other != tenants[id].slug && Taken(tenants, other) ==> Taken(tenants', other)
  {
    var tenants' := tenants[id := tenants[id].(slug := slug)];
    assert tenants[id] in tenants;
    forall t <- tenants' ensures t.slug != tenants[id].slug {
      var i :| 0 <= i < |tenants'| && tenants'[i] == t;
    }
    forall other | other != tenants[id].slug && Taken(tenants, other) ensures Taken(tenants', other) {
      var i: nat :| i < |tenants| && tenants[i].slug == other;
      assert tenants'[i] in tenants';
    }
  }

  lemma UnpassedStaysHonest(st: State, id: nat, slug: string, c: Creator)
    requires DistinctSlugs(st.tenants) && id < |st.tenants| && !Taken(st.tenants, slug)
    requires HonestFor(st, c) && (c.Created? ==> Bounded(c.base, c.k))
    requires forall j: nat :: !PassedAt(c, j, st.tenants[id].slug)
    ensures HonestFor(st.(tenants := st.tenants[id := st.tenants[id].(slug := slug)]), c)
  {
    RenameFrees(st.tenants, id, slug);
    var was := st.tenants[id].slug;
    match c {
      case Idle =>
      case Probing(_, base, k) => NotAmongPassed(c, base, k, was);
      case Inserting(_, base, k) => NotAmongPassed(c, base, k, was);
      case Exhausted(base) => NotAmongPassed(c, base, MAX_SLUG_SUFFIX_ATTEMPTS + 1, was);
      case Created(base, k, _) => NotAmongPassed(c, base, k + 1, was);
    }
  }

  lemma NotAmongPassed(c: Creator, base: string, k: nat, slug: string)
    requires forall j: nat :: !PassedAt(c, j, slug)
    requires forall j: nat :: 1 <= j < k && Candidate(base, j) == slug ==> PassedAt(c, j, slug)
    ensures forall j: nat :: 1 <= j < k ==> Candidate(base, j) != slug
  {
  }

  lemma PassedIsNoLongerHonest(st: State, n0: nat, id: nat, slug: string)
    requires Inv(st, n0) && Honest(st) && id < |st.tenants| && !Taken(st.tenants, slug)
    requires Passed(st, st.tenants[id].slug)
    ensures !Honest(st.(tenants := st.tenants[id := st.tenants[id].(slug := slug)]))
  {
    var st' := st.(tenants := st.tenants[id := st.tenants[id].(slug := slug)]);
    RenameFrees(st.tenants, id, slug);
    var who: nat, j: nat :| PassedAt(CreatorOf(st, who), j, st.tenants[id].slug);
    var c := CreatorOf(st, who);
    assert HonestFor(st, c) && CreatorOk(st, n0, c);
    if c.Created? && j == c.k {
      assert st.tenants[c.id] in st.tenants && c.id == id;
      assert st.tenants[id] in st.tenants;
    } else {
      assert !Taken(st'.tenants, Candidate(c.base, j));
    }
    assert CreatorOf(st', who) == c && !HonestFor(st', c);
  }

  /** Exactly which step makes a creator's findings untrue: a rename off a slug that some creator has passed. */
  lemma StepHonestIff(fold: string -> string, st: State, n0: nat, step: Step)
    requires Inv(st, n0) && Honest(st)
    ensures Honest(Next(fold, st, step)) <==> !Vacates(fold, st, step)
  {
    if !step.Rename? {
      NextHonest(fold, st, n0, step);
    } else if step.id < |st.tenants| && st.tenants[step.id].deletedAt.None?
              && !Taken(st.tenants, CappedSlugify(fold, step.desired)) {
      var slug := CappedSlugify(fold, step.desired);
      var st' := Next(fold, st, step);
      assert st' == st.(tenants := st.tenants[step.id := st.tenants[step.id].(slug := slug)]);
      if Passed(st, st.tenants[step.id].slug) {
        PassedIsNoLongerHonest(st, n0, step.id, slug);
      } else {
        forall who: nat ensures HonestFor(st', CreatorOf(st', who)) {
          var c := CreatorOf(st, who);
          assert HonestFor(st, c) && CreatorOk(st, n0, c);
          forall j: nat ensures !PassedAt(c, j, st.tenants[step.id].slug) {}
          UnpassedStaysHonest(st, step.id, slug, c);
        }
      }
    }
  }

  /** No rename of the run moves a row off a slug that some creator has passed by then. */
  ghost predicate NeverVacates(fold: string -> string, st: State, steps: seq<Step>)
    decreases |steps|
  {
    steps != [] ==> !Vacates(fold, st, steps[0]) && NeverVacates(fold, Next(fold, st, steps[0]), steps[1..])
  }

  /** In every state of the run, what the creators have passed is taken. */
  ghost predicate HonestThroughout(fold: string -> string, st: State, steps: seq<Step>)
    decreases |steps|
  {
    Honest(st) && (steps != [] ==> HonestThroughout(fold, Next(fold, st, steps[0]), steps[1..]))
  }

  /** Findings stay true throughout a run if and only if no rename vacates a passed slug. */
  lemma {:induction false} HonestThroughoutIff(fold: string -> string, st: State, n0: nat, steps: seq<Step>)
    requires Inv(st, n0) && Honest(st)
    ensures HonestThroughout(fold, st, steps) <==> NeverVacates(fold, st, steps)
    ensures NeverVacates(fold, st, steps) ==> Honest(Run(fold, st, steps))
    decreases |steps|
  {
    if steps != [] {
      var st1 := Next(fold, st, steps[0]);
      StepHonestIff(fold, st, n0, steps[0]);
      NextKeeps(fold, st, n0, steps[0]);
      if Honest(st1) { HonestThroughoutIff(fold, st1, n0, steps[1..]); }
    }
  }

  /** So it is, in particular, when nobody renames. */
  lemma {:induction false} NoRenames(fold: string -> string, st: State, steps: seq<Step>)
    requires forall step <- steps :: !step.Rename?
    ensures NeverVacates(fold, st, steps)
    decreases |steps|
  {
    if steps != [] {
      assert steps[0] in steps;
      NoRenames(fold, Next(fold, st, steps[0]), steps[1..]);
    }
  }

  /**
   When no rename vacates a slug that a creator has passed, an exhaustion error means all
   hundred candidates are taken, and a created tenant bears its base or base-2 .. base-100,
   within the hostname limit of section 2.3.4 of RFC 1035, all earlier candidates being taken.
   */
  lemma ExhaustedMeansTaken(fold: string -> string, st: State, steps: seq<Step>, who: nat)
    requires DistinctSlugs(st.tenants) && st.creators == map[]
    requires NeverVacates(fold, st, steps)
    ensures
      var st' := Run(fold, st, steps);
      var c := CreatorOf(st', who);
      && (c.Exhausted? ==> TakenBelow(st'.tenants, c.base, MAX_SLUG_SUFFIX_ATTEMPTS + 1))
      && (c.Created? ==>
            && 1 <= c.k <= MAX_SLUG_SUFFIX_ATTEMPTS && TakenBelow(st'.tenants, c.base, c.k)
            && c.id < |st'.tenants| && st'.tenants[c.id].slug == Candidate(c.base, c.k)
            && |st'.tenants[c.id].slug| <= Slugify.MAX_SLUG_LENGTH)
  {
    RunKeeps(fold, st, |st.tenants|, steps);
    HonestThroughoutIff(fold, st, |st.tenants|, steps);
    var st' := Run(fold, st, steps);
    var c := CreatorOf(st', who);
    assert HonestFor(st', c) && CreatorOk(st', |st.tenants|, c);
    if c.Created? { ShowLength(c.k, 3); }
  }

  // ---------------------------------------------------------------- one creator alone

  /** Probes pass the taken candidates one by one. */
  lemma {:induction false} ProbesClimb(
    fold: string -> string, st: State, who: nat, name: string, base: string, k: nat, n: nat)
    requires CreatorOf(st, who) == Probing(name, base, k) && 1 <= k && k + n <= MAX_SLUG_SUFFIX_ATTEMPTS
    requires TakenBelow(st.tenants, base, k + n)
    ensures
      var st' := Run(fold, st, seq(n, _ => Probe(who)));
      st'.tenants == st.tenants && CreatorOf(st', who) == Probing(name, base, k + n)
    decreases n
  {
    if n > 0 {
      var steps := seq(n, _ => Probe(who));
      assert Taken(st.tenants, Candidate(base, k));
      assert steps[1..] == seq(n - 1, _ => Probe(who));
      ProbesClimb(fold, Next(fold, st, steps[0]), who, name, base, k + 1, n - 1);
    }
  }

  /** Left alone, a creator inserts the first free candidate under its name, as the service call does. */
  lemma SoloCreate(fold: string -> string, st: State, who: nat, name: string, slug: Option<string>, k: nat)
    requires CreatorOf(st, who).Idle? && 1 <= k <= MAX_SLUG_SUFFIX_ATTEMPTS
    requires
      var base := CappedSlugify(fold, if slug.Some? then slug.value else name);
      TakenBelow(st.tenants, base, k) && !Taken(st.tenants, Candidate(base, k))
    ensures
      var base := CappedSlugify(fold, if slug.Some? then slug.value else name);
      var climbed := Run(fold, Next(fold, st, Start(who, name, slug)), seq(k - 1, _ => Probe(who)));
      var st' := Next(fold, Next(fold, climbed, Probe(who)), Insert(who));
      && st'.tenants == st.tenants + [Tenancy.Tenant(Candidate(base, k), name, None)]
      && CreatorOf(st', who) == Created(base, k, |st.tenants|)
  {
    var base := CappedSlugify(fold, if slug.Some? then slug.value else name);
    ProbesClimb(fold, Next(fold, st, Start(who, name, slug)), who, name, base, 1, k - 1);
  }

  // ---------------------------------------------------------------- with a rename that does

  /** A hundred tenants holding every candidate of `base`. */
  function Full(base: string, n: nat): Tenants {
    seq(n, i requires 0 <= i < n => Tenancy.Tenant(Candidate(base, i + 1), "", None))
  }

  /** `n` probes of a full table get a creator past `n` candidates. */
  lemma {:induction false} ProbesPass(fold: string -> string, st: State, base: string, k: nat, n: nat)
    requires st.tenants == Full(base, 100) && 1 <= k && k + n <= 100
    requires CreatorOf(st, 0) == Probing(base, base, k)
    ensures Run(fold, st, seq(n, _ => Probe(0))) == (if n == 0 then st else Put(st, 0, Probing(base, base, k + n)))
    decreases n
  {
    if n > 0 {
      var steps := seq(n, _ => Probe(0));
      assert Taken(st.tenants, Candidate(base, k)) by { assert st.tenants[k - 1] in st.tenants; }
      var st1 := Next(fold, st, steps[0]);
      assert steps[1..] == seq(n - 1, _ => Probe(0));
      ProbesPass(fold, st1, base, k + 1, n - 1);
    }
  }

  /** The full table once row 0 is renamed: the first candidate is free, the hundredth is not. */
  lemma FirstFreed()
    ensures
      var tenants := Full("a", 100);
      var freed := tenants[0 := tenants[0].(slug := "b")];
      && !Taken(tenants, "b") && !Taken(freed, "a") && Taken(freed, Candidate("a", 100))
  {
    var tenants := Full("a", 100);
    var freed := tenants[0 := tenants[0].(slug := "b")];
    forall t <- tenants ensures t.slug != "b" {
      assert t.slug[0] == 'a';
    }
    assert freed[99] in freed;
    forall t <- freed ensures t.slug != "a" {
      var i :| 0 <= i < |freed| && freed[i] == t;
      if i > 0 { CandidatesDiffer("a", 1, i + 1); }
    }
  }

  /** The single letters are slugs already. */
  lemma LettersAreSlugs(letter: string)
    requires letter in {"a", "b"}
    ensures CappedSlugify(s => s, letter) == letter
  {
    assert Slugify.Clean(letter);
    Slugify.SlugifyClean(s => s, letter, MAX_BASE_SLUG_LENGTH);
  }

  lemma RenameThenProbe(tenants: Tenants)
    requires tenants != [] && tenants[0].deletedAt.None? && !Taken(tenants, "b")
    requires Taken(tenants[0 := tenants[0].(slug := "b")], Candidate("a", 100))
    ensures
      var mid := State(tenants, map[0 := Probing("a", "a", 100)]);
      Next(s => s, Next(s => s, mid, Rename(0, "b")), Probe(0))
      == State(tenants[0 := tenants[0].(slug := "b")], map[0 := Exhausted("a")])
  {
    LettersAreSlugs("b");
    var mid := State(tenants, map[0 := Probing("a", "a", 100)]);
    var after := Next(s => s, mid, Rename(0, "b"));
    assert after == mid.(tenants := tenants[0 := tenants[0].(slug := "b")]);
    assert CreatorOf(after, 0) == Probing("a", "a", 100);
  }

  /**
   A run with one that does: a creator starts and passes ninety-nine candidates, a rename frees
   the first of them, and the creator reports exhaustion with a slug to spare.
   */
  lemma RenameCanFreeAPassedCandidate()
    ensures
      var st := State(Full("a", 100), map[]);
      var mid := Run(s => s, Next(s => s, st, Start(0, "a", None)), seq(99, _ => Probe(0)));
      var end := Next(s => s, Next(s => s, mid, Rename(0, "b")), Probe(0));
      CreatorOf(end, 0) == Exhausted("a") && !Taken(end.tenants, "a")
  {
    var tenants := Full("a", 100);
    LettersAreSlugs("a");
    var st := State(tenants, map[0 := Probing("a", "a", 1)]);
    assert Next(s => s, State(tenants, map[]), Start(0, "a", None)) == st;
    ProbesPass(s => s, st, "a", 1, 99);
    FirstFreed();
    assert Put(st, 0, Probing("a", "a", 100)) == State(tenants, map[0 := Probing("a", "a", 100)]);
    RenameThenProbe(tenants);
  }
}
