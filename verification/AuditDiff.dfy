/**
 The audit diff: a patch between two records, with some fields' values hidden.

 A missing record is a create or a delete. A field is hidden when it is listed as sensitive
 or when a pattern matches its name; the default patterns look for words in it. The two loops
 visit the fields in an order that does not matter, and the functions beside them say what
 they build.
 */
module AuditDiff {
  import opened Wrappers
  import Tenancy

  /** Field values up to `Object.is`: two values are the same iff they are equal here. */
  datatype Value = Undefined | Null | Text(s: string) | Other(identity: int)

  type Record = map<string, Value>

  const REDACTED := Text("[REDACTED]")

  datatype DiffEntry = DiffEntry(before: Value, after: Value)

  datatype DiffResult = DiffResult(diff: Option<map<string, DiffEntry>>, sensitive: bool)

  type Pattern = string -> bool

  datatype DiffOptions = DiffOptions(redactPatterns: Option<seq<Pattern>>, sensitiveColumns: Option<seq<string>>)

  predicate Contains(s: string, word: string) {
    exists i :: 0 <= i <= |s| && word <= s[i..]
  }

  /** The default patterns, matched whatever the case. */
  function DefaultPatterns(): seq<Pattern> {
    [s => Contains(Tenancy.Lower(s), "password"),
     s => Contains(Tenancy.Lower(s), "token"),
     s => Contains(Tenancy.Lower(s), "secret"),
     s => Contains(Tenancy.Lower(s), "apikey") || Contains(Tenancy.Lower(s), "api_key")
          || Contains(Tenancy.Lower(s), "api-key"),
     s => Contains(Tenancy.Lower(s), "hash")]
  }

  function Patterns(options: DiffOptions): seq<Pattern> {
    if options.redactPatterns.Some? then options.redactPatterns.value else DefaultPatterns()
  }

  function Columns(options: DiffOptions): seq<string> {
    if options.sensitiveColumns.Some? then options.sensitiveColumns.value else []
  }

  predicate Redacts(options: DiffOptions, field: string) {
    field in Columns(options) || exists i :: 0 <= i < |Patterns(options)| && Patterns(options)[i](field)
  }

  /** A record's field, a missing record, field or value being null. */
  function Get(record: Option<Record>, field: string): Value {
    if record.None? || field !in record.value || record.value[field].Undefined? then Null
    else record.value[field]
  }

  function Fields(record: Option<Record>): set<string> {
    if record.Some? then record.value.Keys else {}
  }

  /** A field the diff lists: on an update one that changed, on a create or delete every one. */
  predicate Emitted(before: Option<Record>, after: Option<Record>, field: string) {
    && field in Fields(before) + Fields(after)
    && (before.Some? && after.Some? ==> Get(before, field) != Get(after, field))
  }

  function Hide(record: Option<Record>, value: Value, redacted: bool): Value {
    if redacted && record.Some? then REDACTED else value
  }

  function EntryFor(before: Option<Record>, after: Option<Record>, options: DiffOptions, field: string): DiffEntry {
    var redacted := Redacts(options, field);
    DiffEntry(Hide(before, Get(before, field), redacted), Hide(after, Get(after, field), redacted))
  }

  function Entries(before: Option<Record>, after: Option<Record>, options: DiffOptions): map<string, DiffEntry> {
    map field | field in Fields(before) + Fields(after) && Emitted(before, after, field) ::
      EntryFor(before, after, options, field)
  }

  /** What `computeDiff` returns. */
  ghost predicate IsDiff(before: Option<Record>, after: Option<Record>, options: DiffOptions, r: DiffResult) {
    var entries := Entries(before, after, options);
    && r.diff == (if entries == map[] then None else Some(entries))
    && (r.sensitive <==> exists field :: field in entries && Redacts(options, field))
  }

  // ---------------------------------------------------------------- the loops

  method IsRedacted(field: string, patterns: seq<Pattern>, sensitiveColumns: seq<string>) returns (r: bool)
    ensures r <==> field in sensitiveColumns || exists i :: 0 <= i < |patterns| && patterns[i](field)
  {
    if field in sensitiveColumns { return true; }
    for i := 0 to |patterns|
      invariant forall j :: 0 <= j < i ==> !patterns[j](field)
    {
      if patterns[i](field) { return true; }
    }
    return false;
  }

  /** What the loop has built once it has visited `seen`. */
  ghost predicate Built(
    before: Option<Record>, after: Option<Record>, options: DiffOptions, seen: set<string>,
    out: map<string, DiffEntry>, sensitive: bool) {
    && out == (map field | field in seen && Emitted(before, after, field) :: EntryFor(before, after, options, field))
    && (sensitive <==> exists field :: field in out && Redacts(options, field))
  }

  lemma BuiltAdd(
    before: Option<Record>, after: Option<Record>, options: DiffOptions, seen: set<string>,
    out: map<string, DiffEntry>, sensitive: bool, field: string)
    requires Built(before, after, options, seen, out, sensitive) && Emitted(before, after, field) && field !in seen
    ensures Built(before, after, options, seen + {field},
                  out[field := EntryFor(before, after, options, field)], sensitive || Redacts(options, field))
  {
    var out' := out[field := EntryFor(before, after, options, field)];
    assert field in out';
    forall f | f in out ensures f in out' {}
  }

  /** `computeDiff`; the fields are visited in an order that does not matter. */
  method ComputeDiff(before: Option<Record>, after: Option<Record>, options: DiffOptions) returns (r: DiffResult)
    ensures IsDiff(before, after, options, r)
  {
    var patterns := Patterns(options);
    var sensitiveColumns := Columns(options);
    var out: map<string, DiffEntry> := map[];
    var sensitive := false;
    var all := Fields(before) + Fields(after);
    var todo := all;
    while todo != {}
      invariant todo <= all && Built(before, after, options, all - todo, out, sensitive)
    {
      var field :| field in todo;
      ghost var seen := all - todo;
      todo := todo - {field};
      assert all - todo == seen + {field};
      var beforeValue, afterValue := Get(before, field), Get(after, field);
      if before.None? || after.None? || beforeValue != afterValue {
        BuiltAdd(before, after, options, seen, out, sensitive, field);
        var redacted := IsRedacted(field, patterns, sensitiveColumns);
        if redacted {
          sensitive := true;
          out := out[field := DiffEntry(
            if before.None? then Null else REDACTED, if after.None? then Null else REDACTED)];
        } else {
          out := out[field := DiffEntry(beforeValue, afterValue)];
        }
      }
    }
    assert all - todo == all;
    assert out == Entries(before, after, options);
    r := DiffResult(if out == map[] then None else Some(out), sensitive);
  }

  /** `redact`, for free-standing records. */
  method Redact(value: Record, options: DiffOptions) returns (out: Record, sensitive: bool)
    ensures out == Redacted(value, options)
    ensures sensitive <==> exists field :: field in value && Redacts(options, field)
  {
    out, sensitive := map[], false;
    var todo := value.Keys;
    while todo != {}
      invariant todo <= value.Keys
      invariant out.Keys == value.Keys - todo
      invariant forall field <- out :: out[field] == if Redacts(options, field) then REDACTED else value[field]
      invariant sensitive <==> exists field :: field in out && Redacts(options, field)
    {
      var field :| field in todo;
      todo := todo - {field};
      var redacted := IsRedacted(field, Patterns(options), Columns(options));
      ghost var was := out;
      out := out[field := if redacted then REDACTED else value[field]];
      sensitive := sensitive || redacted;
      assert out.Keys == was.Keys + {field};
      assert redacted ==> field in out && Redacts(options, field);
      assert forall f <- was :: f in out;
    }
  }

  function Redacted(value: Record, options: DiffOptions): Record {
    map field | field in value :: if Redacts(options, field) then REDACTED else value[field]
  }

  // ---------------------------------------------------------------- a diff is a patch

  function Changes(r: DiffResult): map<string, DiffEntry> {
    if r.diff.Some? then r.diff.value else map[]
  }

  function RecordOf(record: Option<Record>): Record {
    if record.Some? then record.value else map[]
  }

  function Forward(record: Record, r: DiffResult): Record {
    record + map field | field in Changes(r) :: Changes(r)[field].after
  }

  function Backward(record: Record, r: DiffResult): Record {
    record + map field | field in Changes(r) :: Changes(r)[field].before
  }

  /**
   Exactly which fields a diff carries: applied to `before` it gives the field of `after`, and
   applied backwards to `after` the field of `before`, except where a redacted value differs
   from its replacement text.
   */
  lemma DiffIsPatch(before: Option<Record>, after: Option<Record>, options: DiffOptions, r: DiffResult, field: string)
    requires IsDiff(before, after, options, r)
    ensures
      var lost := Redacts(options, field) && Emitted(before, after, field);
      && (Get(Some(Forward(RecordOf(before), r)), field) == Get(after, field) <==>
            !(lost && after.Some? && Get(after, field) != REDACTED))
      && (Get(Some(Backward(RecordOf(after), r)), field) == Get(before, field) <==>
            !(lost && before.Some? && Get(before, field) != REDACTED))
  {
    var entries := Entries(before, after, options);
    assert Changes(r) == entries;
    if field in entries {
      assert entries[field] == EntryFor(before, after, options, field);
    } else {
      assert field in Fields(before) + Fields(after) ==> Get(before, field) == Get(after, field);
    }
  }

  /** No diff means no change; and the flag is set iff a listed field was hidden. */
  lemma NoDiffMeansNoChange(before: Record, after: Record, options: DiffOptions, r: DiffResult)
    requires IsDiff(Some(before), Some(after), options, r)
    ensures r.diff.None? <==> forall field :: Get(Some(before), field) == Get(Some(after), field)
    ensures r.sensitive <==>
            exists field :: Get(Some(before), field) != Get(Some(after), field) && Redacts(options, field)
  {
    var entries := Entries(Some(before), Some(after), options);
    forall field ensures field in entries <==> Get(Some(before), field) != Get(Some(after), field) {
      assert Emitted(Some(before), Some(after), field) <==> Get(Some(before), field) != Get(Some(after), field);
    }
    if entries == map[] {
      assert forall field :: field !in entries;
    } else {
      var field :| field in entries;
    }
  }

  /** The two records show the same to a reader who may not see redacted values. */
  ghost predicate SameOutside(options: DiffOptions, a: Option<Record>, b: Option<Record>) {
    && (a.Some? <==> b.Some?)
    && Fields(a) == Fields(b)
    && forall field :: !Redacts(options, field) ==> Get(a, field) == Get(b, field)
  }

  /** Redacted values leak nothing but whether they changed. */
  lemma RedactionHides(
    before1: Option<Record>, after1: Option<Record>, before2: Option<Record>, after2: Option<Record>,
    options: DiffOptions, r1: DiffResult, r2: DiffResult)
    requires IsDiff(before1, after1, options, r1) && IsDiff(before2, after2, options, r2)
    requires SameOutside(options, before1, before2) && SameOutside(options, after1, after2)
    requires forall field :: Redacts(options, field) ==>
                 (Get(before1, field) == Get(after1, field) <==> Get(before2, field) == Get(after2, field))
    ensures r1 == r2
  {
    var entries1, entries2 := Entries(before1, after1, options), Entries(before2, after2, options);
    forall field ensures Emitted(before1, after1, field) <==> Emitted(before2, after2, field) {
      assert Redacts(options, field) || !Redacts(options, field);
    }
    assert entries1.Keys == entries2.Keys;
    forall field | field in entries1 ensures entries1[field] == entries2[field] {
      if !Redacts(options, field) {
        assert Get(before1, field) == Get(before2, field) && Get(after1, field) == Get(after2, field);
      }
    }
    assert entries1 == entries2;
  }

  /** Redacting again changes nothing, and two records equal outside the redacted fields redact alike. */
  lemma RedactedHides(a: Record, b: Record, options: DiffOptions)
    requires a.Keys == b.Keys && forall field <- a :: !Redacts(options, field) ==> a[field] == b[field]
    ensures Redacted(a, options) == Redacted(b, options)
    ensures Redacted(Redacted(a, options), options) == Redacted(a, options)
  {
    assert Redacted(a, options).Keys == Redacted(b, options).Keys;
  }

  // ---------------------------------------------------------------- what a reader of the diff sees

  /** `v` is what the record shows for the field: its value, or null when there is none. */
  ghost predicate Shows(record: Record, field: string, v: Value) {
    if field in record && record[field] != Undefined then v == record[field] else v == Null
  }

  /** The field is redacted: listed, or matched by one of the patterns in force. */
  ghost predicate Hidden(options: DiffOptions, field: string) {
    || (options.sensitiveColumns.Some? && field in options.sensitiveColumns.value)
    || (options.redactPatterns.Some?
        && exists i: nat :: i < |options.redactPatterns.value| && options.redactPatterns.value[i](field))
    || (options.redactPatterns.None? && SoundsSecret(field))
  }

  /** One of the words is in the field's name, in whatever case. */
  ghost predicate SoundsSecret(field: string) {
    || Says(field, "password") || Says(field, "token") || Says(field, "secret") || Says(field, "hash")
    || Says(field, "apikey") || Says(field, "api_key") || Says(field, "api-key")
  }

  ghost predicate Says(field: string, word: string) { exists at: nat :: Spells(field, at, word) }

  ghost predicate Spells(field: string, at: nat, word: string) {
    at + |word| <= |field|
    && forall k :: 0 <= k < |word| ==>
         field[at + k] == word[k] || ('a' <= word[k] <= 'z' && field[at + k] as int == word[k] as int - 32)
  }

  lemma SpellsIsContained(field: string, word: string)
    requires forall k :: 0 <= k < |word| ==> !('A' <= word[k] <= 'Z')
    ensures Contains(Tenancy.Lower(field), word) <==> Says(field, word)
  {
    var lower := Tenancy.Lower(field);
    forall at: nat | Spells(field, at, word) ensures at <= |lower| && word <= lower[at..] {
      assert lower[at..at + |word|] == word;
    }
    if Contains(lower, word) {
      var at: nat :| at <= |lower| && word <= lower[at..];
      forall k | 0 <= k < |word|
        ensures field[at + k] == word[k] || ('a' <= word[k] <= 'z' && field[at + k] as int == word[k] as int - 32)
      {
        assert lower[at..][k] == word[k];
      }
      assert Spells(field, at, word);
    }
  }

  lemma HiddenIffRedacts(options: DiffOptions, field: string)
    ensures Hidden(options, field) <==> Redacts(options, field)
  {
    var patterns := Patterns(options);
    if options.redactPatterns.None? {
      SecretIffDefault(field);
    } else {
      assert patterns == options.redactPatterns.value;
      if i: nat :| i < |patterns| && patterns[i](field) { assert Redacts(options, field); }
      if i :| 0 <= i < |patterns| && patterns[i](field) {
        var k: nat := i;
        assert options.redactPatterns.value[k](field);
      }
    }
  }

  lemma SecretIffDefault(field: string)
    ensures SoundsSecret(field) <==> exists i :: 0 <= i < |DefaultPatterns()| && DefaultPatterns()[i](field)
  {
    SpellsIsContained(field, "password");
    SpellsIsContained(field, "token");
    SpellsIsContained(field, "secret");
    SpellsIsContained(field, "hash");
    SpellsIsContained(field, "apikey");
    SpellsIsContained(field, "api_key");
    SpellsIsContained(field, "api-key");
    DefaultsContain(field);
    var lower := Tenancy.Lower(field);
    assert Looks(0, lower) || Looks(1, lower) || Looks(2, lower) || Looks(3, lower) || Looks(4, lower) <==>
             exists i: nat :: i < 5 && Looks(i, lower);
  }

  /** What the default pattern `i` looks for. */
  ghost predicate Looks(i: nat, lower: string) {
    if i == 0 then Contains(lower, "password")
    else if i == 1 then Contains(lower, "token")
    else if i == 2 then Contains(lower, "secret")
    else if i == 3 then Contains(lower, "apikey") || Contains(lower, "api_key") || Contains(lower, "api-key")
    else Contains(lower, "hash")
  }

  lemma DefaultPatternAt(field: string, i: nat)
    requires i < 5
    ensures |DefaultPatterns()| == 5 && (DefaultPatterns()[i](field) <==> Looks(i, Tenancy.Lower(field)))
  {
    if i == 0 {
    } else if i == 1 {
    } else if i == 2 {
    } else if i == 3 {
    }
  }

  lemma DefaultsContain(field: string)
    ensures (exists i :: 0 <= i < |DefaultPatterns()| && DefaultPatterns()[i](field)) <==>
            exists i: nat :: i < 5 && Looks(i, Tenancy.Lower(field))
  {
    var patterns := DefaultPatterns();
    DefaultPatternAt(field, 0);
    if i: nat :| i < 5 && Looks(i, Tenancy.Lower(field)) {
      DefaultPatternAt(field, i);
      assert patterns[i](field);
    }
    if i :| 0 <= i < |patterns| && patterns[i](field) {
      DefaultPatternAt(field, i);
    }
  }

  /**
   An update lists a field iff what the two records show for it differs, and shows exactly these
   two values; of a redacted field it shows that it changed, and nothing else.
   */
  lemma UpdateShows(
    before: Record, after: Record, options: DiffOptions, r: DiffResult, field: string, b: Value, a: Value)
    requires IsDiff(Some(before), Some(after), options, r)
    requires Shows(before, field, b) && Shows(after, field, a)
    ensures (r.diff.Some? && field in r.diff.value) <==> b != a
    ensures b != a && !Hidden(options, field) ==> r.diff.value[field] == DiffEntry(b, a)
    ensures b != a && Hidden(options, field) ==>
              r.diff.value[field] == DiffEntry(Text("[REDACTED]"), Text("[REDACTED]")) && r.sensitive
  {
    HiddenIffRedacts(options, field);
    var entries := Entries(Some(before), Some(after), options);
    assert Get(Some(before), field) == b && Get(Some(after), field) == a;
    if b != a { assert field in entries; }
  }

  /** A create lists exactly the fields of the new record, each as coming from null. */
  lemma CreateShows(after: Record, options: DiffOptions, r: DiffResult, field: string, a: Value)
    requires IsDiff(None, Some(after), options, r) && Shows(after, field, a)
    ensures (r.diff.Some? && field in r.diff.value) <==> field in after
    ensures field in after ==>
              r.diff.value[field] == DiffEntry(Null, if Hidden(options, field) then Text("[REDACTED]") else a)
  {
    HiddenIffRedacts(options, field);
    if field in after { assert field in Entries(None, Some(after), options); }
  }

  /** A delete lists exactly the fields of the old record, each as going to null. */
  lemma DeleteShows(before: Record, options: DiffOptions, r: DiffResult, field: string, b: Value)
    requires IsDiff(Some(before), None, options, r) && Shows(before, field, b)
    ensures (r.diff.Some? && field in r.diff.value) <==> field in before
    ensures field in before ==>
              r.diff.value[field] == DiffEntry(if Hidden(options, field) then Text("[REDACTED]") else b, Null)
  {
    HiddenIffRedacts(options, field);
    if field in before { assert field in Entries(Some(before), None, options); }
  }
}
