/**
 The callable transaction proxy: programs that write, branch on what they read, throw,
 catch and call `transaction(...)`, and the ambient store that routes their statements.
 */
module Transactions {
  import opened Wrappers

  type Db = map<string, int>

  datatype Level = ReadUncommitted | ReadCommitted | RepeatableRead | Serializable | Snapshot

  datatype Program =
    | Write(key: string, value: int)
    | IfEqual(key: string, value: int, thn: Program, els: Program)
    | Throw(error: string)
    | Seq(first: Program, second: Program)
    | Catch(body: Program, handler: Program)
    | Transaction(level: Option<Level>, inner: Program)

  datatype Outcome = Done | Threw(error: string)

  const COMMIT_FAILED := "commit failed"

  /**
   What the database has committed; the working copy of the ambient transaction, if one is
   installed; and the isolation level of every database transaction begun so far.
   */
  datatype World = World(committed: Db, ambient: Option<Db>, begun: seq<Option<Level>>)

  /** Whether the n-th database transaction's COMMIT succeeds (it may not, say on a serialization failure). */
  type Commits = nat -> bool

  /** A statement goes to the ambient transaction if there is one, to the data source otherwise. */
  function Active(w: World): Db { if w.ambient.Some? then w.ambient.value else w.committed }

  function Set(w: World, key: string, value: int): World {
    if w.ambient.Some? then w.(ambient := Some(w.ambient.value[key := value]))
    else w.(committed := w.committed[key := value])
  }

  predicate Reads(db: Db, key: string, value: int) { key in db && db[key] == value }

  function Eval(p: Program, w: World, commits: Commits): (r: (Outcome, World))
    ensures r.1.ambient.Some? <==> w.ambient.Some?
    ensures w.ambient.Some? ==> r.1.committed == w.committed && r.1.begun == w.begun
  {
    match p
    case Write(key, value) => (Done, Set(w, key, value))
    case IfEqual(key, value, thn, els) =>
      if Reads(Active(w), key, value) then Eval(thn, w, commits) else Eval(els, w, commits)
    case Throw(error) => (Threw(error), w)
    case Seq(first, second) =>
      var (o, w1) := Eval(first, w, commits);
      if o.Done? then Eval(second, w1, commits) else (o, w1)
    case Catch(body, handler) =>
      var (o, w1) := Eval(body, w, commits);
      if o.Threw? then Eval(handler, w1, commits) else (o, w1)
    case Transaction(level, inner) =>
      if w.ambient.Some? then Eval(inner, w, commits)
      else
        var begun := w.begun + [level];
        var (o, w1) := Eval(inner, World(w.committed, Some(w.committed), begun), commits);
        if o.Threw? then (o, World(w.committed, None, begun))
        else if commits(|w.begun|) then (Done, World(w1.ambient.value, None, begun))
        else (Threw(COMMIT_FAILED), World(w.committed, None, begun))
  }

  // ---------------------------------------------------------------- erasing inner transactions

  /** The program without the `transaction` calls that run inside another one. */
  function Erase(p: Program, inside: bool): Program {
    match p
    case Write(_, _) => p
    case IfEqual(key, value, thn, els) => IfEqual(key, value, Erase(thn, inside), Erase(els, inside))
    case Throw(_) => p
    case Seq(first, second) => Seq(Erase(first, inside), Erase(second, inside))
    case Catch(body, handler) => Catch(Erase(body, inside), Erase(handler, inside))
    case Transaction(level, inner) =>
      if inside then Erase(inner, true) else Transaction(level, Erase(inner, true))
  }

  predicate NoTransaction(p: Program) {
    match p
    case Write(_, _) => true
    case IfEqual(_, _, thn, els) => NoTransaction(thn) && NoTransaction(els)
    case Throw(_) => true
    case Seq(first, second) => NoTransaction(first) && NoTransaction(second)
    case Catch(body, handler) => NoTransaction(body) && NoTransaction(handler)
    case Transaction(_, _) => false
  }

  /** Inside a transaction, erasure leaves none. */
  lemma {:induction false} EraseInside(p: Program)
    ensures NoTransaction(Erase(p, true))
  {
    match p {
      case IfEqual(_, _, thn, els) => EraseInside(thn); EraseInside(els);
      case Seq(first, second) => EraseInside(first); EraseInside(second);
      case Catch(body, handler) => EraseInside(body); EraseInside(handler);
      case Transaction(_, inner) => EraseInside(inner);
      case _ =>
    }
  }

  /** Erasing them changes neither the outcome, nor the database, nor the transactions begun. */
  lemma {:induction false} ErasurePreserves(p: Program, w: World, commits: Commits)
    ensures Eval(Erase(p, w.ambient.Some?), w, commits) == Eval(p, w, commits)
  {
    var inside := w.ambient.Some?;
    match p {
      case IfEqual(_, _, thn, els) =>
        ErasurePreserves(thn, w, commits);
        ErasurePreserves(els, w, commits);
      case Seq(first, second) =>
        ErasurePreserves(first, w, commits);
        ErasurePreserves(second, Eval(first, w, commits).1, commits);
      case Catch(body, handler) =>
        ErasurePreserves(body, w, commits);
        ErasurePreserves(handler, Eval(body, w, commits).1, commits);
      case Transaction(level, inner) =>
        if inside {
          ErasurePreserves(inner, w, commits);
        } else {
          ErasurePreserves(inner, World(w.committed, Some(w.committed), w.begun + [level]), commits);
        }
      case _ =>
    }
  }

  // ---------------------------------------------------------------- all or nothing

  /** What a program does to one database when `transaction(cb)` just runs `cb`. */
  function Flat(p: Program, db: Db): (Outcome, Db) {
    match p
    case Write(key, value) => (Done, db[key := value])
    case IfEqual(key, value, thn, els) => if Reads(db, key, value) then Flat(thn, db) else Flat(els, db)
    case Throw(error) => (Threw(error), db)
    case Seq(first, second) =>
      var (o, db1) := Flat(first, db);
      if o.Done? then Flat(second, db1) else (o, db1)
    case Catch(body, handler) =>
      var (o, db1) := Flat(body, db);
      if o.Threw? then Flat(handler, db1) else (o, db1)
    case Transaction(_, inner) => Flat(inner, db)
  }

  /** Inside an ambient transaction a program acts on the working copy alone, as `Flat` says. */
  lemma {:induction false} AmbientIsFlat(p: Program, w: World, commits: Commits)
    requires w.ambient.Some?
    ensures
      var (o, db) := Flat(p, w.ambient.value);
      Eval(p, w, commits) == (o, w.(ambient := Some(db)))
  {
    match p {
      case IfEqual(_, _, thn, els) =>
        AmbientIsFlat(thn, w, commits);
        AmbientIsFlat(els, w, commits);
      case Seq(first, second) =>
        AmbientIsFlat(first, w, commits);
        AmbientIsFlat(second, Eval(first, w, commits).1, commits);
      case Catch(body, handler) =>
        AmbientIsFlat(body, w, commits);
        AmbientIsFlat(handler, Eval(body, w, commits).1, commits);
      case Transaction(_, inner) => AmbientIsFlat(inner, w, commits);
      case _ =>
    }
  }

  /**
   An outermost transaction opens exactly one database transaction, at its own isolation
   level whatever its inner calls ask for; commits all of its body's effect or none of it;
   and leaves no ambient transaction behind.
   */
  lemma OutermostIsAtomic(level: Option<Level>, body: Program, w: World, commits: Commits)
    requires w.ambient.None?
    ensures
      var (o, w') := Eval(Transaction(level, body), w, commits);
      var (o', db) := Flat(body, w.committed);
      && w'.ambient.None?
      && w'.begun == w.begun + [level]
      && w'.committed == (if o.Done? then db else w.committed)
      && (o.Done? <==> o'.Done? && commits(|w.begun|))
      && (o'.Threw? ==> o == o')
  {
    AmbientIsFlat(body, World(w.committed, Some(w.committed), w.begun + [level]), commits);
  }

  /** Outside any transaction, a program that opens none acts on the committed rows statement by statement. */
  lemma {:induction false} AutocommitIsFlat(p: Program, w: World, commits: Commits)
    requires w.ambient.None? && NoTransaction(p)
    ensures
      var (o, db) := Flat(p, w.committed);
      Eval(p, w, commits) == (o, w.(committed := db))
  {
    match p {
      case IfEqual(_, _, thn, els) =>
        AutocommitIsFlat(thn, w, commits);
        AutocommitIsFlat(els, w, commits);
      case Seq(first, second) =>
        AutocommitIsFlat(first, w, commits);
        AutocommitIsFlat(second, Eval(first, w, commits).1, commits);
      case Catch(body, handler) =>
        AutocommitIsFlat(body, w, commits);
        AutocommitIsFlat(handler, Eval(body, w, commits).1, commits);
      case _ =>
    }
  }

  /**
   A joined inner transaction is not atomic by itself: when its error is caught inside the
   outer one, what it wrote before throwing is committed, exactly as without the wrapper.
   */
  lemma CaughtInnerWritesCommit(
    level: Option<Level>, inner: Option<Level>, key: string, value: int, w: World, commits: Commits)
    requires w.ambient.None? && commits(|w.begun|)
    ensures
      var failing := Transaction(inner, Seq(Write(key, value), Throw("inner")));
      Eval(Transaction(level, Catch(failing, Write("log", 1))), w, commits)
      == (Done, World(w.committed[key := value]["log" := 1], None, w.begun + [level]))
  {
    var body := Seq(Write(key, value), Throw("inner"));
    var caught := Catch(Transaction(inner, body), Write("log", 1));
    assert Flat(body, w.committed) == (Threw("inner"), w.committed[key := value]);
    assert Flat(Transaction(inner, body), w.committed) == Flat(body, w.committed);
    assert Flat(caught, w.committed) == (Done, w.committed[key := value]["log" := 1]);
    OutermostIsAtomic(level, caught, w, commits);
  }

  // ---------------------------------------------------------------- the proxy object

  /** The closure of `createTransactionFactory`: its data source and its async-local store. */
  class TransactionFactory {
    const commits: Commits
    var committed: Db
    var store: Option<Db>
    var begun: seq<Option<Level>>

    ghost function Now(): World
      reads this
    {
      World(committed, store, begun)
    }

    constructor (committed: Db, commits: Commits)
      ensures Now() == World(committed, None, []) && this.commits == commits
    {
      this.committed, this.commits := committed, commits;
      store, begun := None, [];
    }

    /** `runTransaction`: join the ambient transaction, or open one around the callback. */
    method RunTransaction(level: Option<Level>, callback: Program) returns (o: Outcome)
      modifies this
      ensures (o, Now()) == Eval(Transaction(level, callback), old(Now()), commits)
      decreases callback, 1
    {
      if store.Some? {
        o := Execute(callback);
        return;
      }
      var builder: Option<Level> := None;
      if level.Some? {
        builder := level;
      }
      var nth := |begun|;
      begun := begun + [builder];
      store := Some(committed);
      o := Execute(callback);
      if o.Done? {
        if commits(nth) {
          committed := store.value;
        } else {
          o := Threw(COMMIT_FAILED);
        }
      }
      store := None;
    }

    /** Runs a program's statements through the proxy. */
    method Execute(p: Program) returns (o: Outcome)
      modifies this
      ensures (o, Now()) == Eval(p, old(Now()), commits)
      decreases p, 0
    {
      match p {
        case Write(key, value) =>
          if store.Some? {
            store := Some(store.value[key := value]);
          } else {
            committed := committed[key := value];
          }
          return Done;
        case IfEqual(key, value, thn, els) =>
          var active := if store.Some? then store.value else committed;
          if Reads(active, key, value) {
            o := Execute(thn);
          } else {
            o := Execute(els);
          }
        case Throw(error) =>
          return Threw(error);
        case Seq(first, second) =>
          o := Execute(first);
          if o.Done? {
            o := Execute(second);
          }
        case Catch(body, handler) =>
          o := Execute(body);
          if o.Threw? {
            o := Execute(handler);
          }
        case Transaction(level, inner) =>
          o := RunTransaction(level, inner);
      }
    }
  }
}
