/** Nested transactions over one SQLite connection (src/server.js): the outermost call opens a
    transaction, inner calls open savepoints, and a throw undoes the call it passes through. */
module Savepoints {

  /** The rows of the database. */
  type Data = map<string, int>

  /** A savepoint, with the data as it was when the savepoint was set. */
  datatype Frame = Frame(name: nat, snapshot: Data)

  /** The program an operation runs: writes, nested transaction calls whose closing statement may fail,
      `try`/`catch` around a part, and throws at any point. */
  datatype Stmt =
    | Write(key: string, value: int)
    | Throw
    | Transaction(body: seq<Stmt>, closeFails: bool)
    | Guarded(body: seq<Stmt>)

  datatype Outcome = Returned | Threw

  // ---------------------------------------------------------------- what the calls mean

  /** The meaning with no savepoints at all: a transaction call that throws leaves the data as it found it. */
  function Meaning(s: Stmt, data: Data): (Data, Outcome)
    decreases s, 1
  {
    match s
    case Write(k, v) => (data[k := v], Returned)
    case Throw => (data, Threw)
    case Transaction(body, closeFails) =>
      var (after, outcome) := MeaningOfAll(body, data);
      if outcome == Threw || closeFails then (data, Threw) else (after, Returned)
    case Guarded(body) => (MeaningOfAll(body, data).0, Returned)
  }

  function MeaningOfAll(body: seq<Stmt>, data: Data): (Data, Outcome)
    decreases body, 0
  {
    if body == [] then (data, Returned)
    else
      var (after, outcome) := Meaning(body[0], data);
      if outcome == Threw then (after, Threw) else MeaningOfAll(body[1..], after)
  }

  // ---------------------------------------------------------------- the connection

  ghost predicate IsSet(frames: seq<Frame>, name: nat) {
    exists k :: 0 <= k < |frames| && frames[k].name == name
  }

  /** The newest frame of that name, as an index into the stack. */
  function Newest(frames: seq<Frame>, name: nat): (i: nat)
    requires IsSet(frames, name)
    ensures i < |frames| && frames[i].name == name
    ensures forall k :: i < k < |frames| ==> frames[k].name != name
  {
    var n := |frames| - 1;
    if frames[n].name == name then n
    else
      assert IsSet(frames[..n], name) by {
        var k :| 0 <= k < |frames| && frames[k].name == name;
        assert frames[..n][k].name == name;
      }
      Newest(frames[..n], name)
  }

  /** The frame just set is the one its name finds, whatever the names below it are. */
  lemma OwnFrameIsNewest(below: seq<Frame>, own: Frame)
    ensures IsSet(below + [own], own.name) && Newest(below + [own], own.name) == |below|
  {
    assert (below + [own])[|below|] == own;
  }

  class Database {
    var data: Data
    var inTransaction: bool
    var begun: Data          // the data when the transaction began
    var frames: seq<Frame>   // open savepoints, oldest first

    constructor (data: Data)
      ensures this.data == data && !inTransaction && frames == []
    {
      this.data, begun := data, data;
      inTransaction, frames := false, [];
    }

    method Begin()
      requires !inTransaction && frames == []
      modifies this
      ensures inTransaction && begun == data == old(data) && frames == []
    {
      inTransaction, begun := true, data;
    }

    method Commit()
      requires inTransaction
      modifies this
      ensures !inTransaction && frames == [] && data == old(data)
    {
      inTransaction, frames := false, [];
    }

    method Rollback()
      requires inTransaction
      modifies this
      ensures !inTransaction && frames == [] && data == old(begun)
    {
      data, inTransaction, frames := begun, false, [];
    }

    method Savepoint(name: nat)
      requires inTransaction
      modifies `frames
      ensures frames == old(frames) + [Frame(name, data)]
    {
      frames := frames + [Frame(name, data)];
    }

    /** Forgets the newest savepoint of that name and everything set after it. */
    method Release(name: nat)
      requires inTransaction && IsSet(frames, name)
      modifies `frames
      ensures frames == old(frames)[..Newest(old(frames), name)]
    {
      frames := frames[..Newest(frames, name)];
    }

    /** Restores the data of the newest savepoint of that name, which stays set. */
    method RollbackTo(name: nat)
      requires inTransaction && IsSet(frames, name)
      modifies `frames, `data
      ensures var i := Newest(old(frames), name);
        data == old(frames)[i].snapshot && frames == old(frames)[..i + 1]
    {
      var i := Newest(frames, name);
      data := frames[i].snapshot;
      frames := frames[..i + 1];
    }
  }

  /** The process-wide counter behind the savepoint names. */
  class Counter {
    var sequence: nat

    constructor ()
      ensures sequence == 0
    {
      sequence := 0;
    }
  }

  // ---------------------------------------------------------------- the code, step by step

  /** Savepoint names taken from the counter rise along the stack. */
  ghost predicate NamesRise(frames: seq<Frame>, sequence: nat) {
    && (forall i :: 0 <= i < |frames| ==> frames[i].name <= sequence)
    && (forall i, j :: 0 <= i < j < |frames| ==> frames[i].name < frames[j].name)
  }

  /** So a new savepoint has a name no open one has, and each name finds its own frame wherever it
      is in the stack. */
  lemma FreshNamesFindTheirFrames(frames: seq<Frame>, sequence: nat, data: Data)
    requires NamesRise(frames, sequence)
    ensures NamesRise(frames + [Frame(sequence + 1, data)], sequence + 1)
    ensures !IsSet(frames, sequence + 1)
    ensures forall i :: 0 <= i < |frames| ==> IsSet(frames, frames[i].name) && Newest(frames, frames[i].name) == i
  {
  }

  /** The `catch` of an inner call: undo to the call's own savepoint, then drop it. */
  method Undo(db: Database, savepoint: nat, ghost below: seq<Frame>, ghost before: Data)
    requires db.inTransaction && db.frames == below + [Frame(savepoint, before)]
    modifies db
    ensures db.inTransaction && db.frames == below && db.data == before && db.begun == old(db.begun)
  {
    OwnFrameIsNewest(below, Frame(savepoint, before));
    db.RollbackTo(savepoint);
    assert db.frames == below + [Frame(savepoint, before)];
    db.Release(savepoint);
  }

  /** An inner call of `withPreventureTransaction`: a savepoint around the operation. */
  method WithSavepoint(db: Database, counter: Counter, body: seq<Stmt>, closeFails: bool) returns (outcome: Outcome)
    requires db.inTransaction
    modifies db, counter
    ensures db.inTransaction && db.frames == old(db.frames) && db.begun == old(db.begun)
    ensures old(counter.sequence) < counter.sequence
    ensures (db.data, outcome) == Meaning(Transaction(body, closeFails), old(db.data))
    ensures outcome == Threw ==> db.data == old(db.data)
    decreases body, 1
  {
    counter.sequence := counter.sequence + 1;
    var savepoint := counter.sequence;
    db.Savepoint(savepoint);
    outcome := RunAll(db, counter, body);
    if outcome == Returned && !closeFails {
      OwnFrameIsNewest(old(db.frames), Frame(savepoint, old(db.data)));
      db.Release(savepoint);
    } else {
      outcome := Threw;
      Undo(db, savepoint, old(db.frames), old(db.data));
    }
  }

  /** `withPreventureTransaction`. Whatever the operation does, the call leaves the connection's stack
      as it was, the data as the plain meaning says, and reports a throw exactly when that does. */
  method WithTransaction(db: Database, counter: Counter, body: seq<Stmt>, closeFails: bool) returns (outcome: Outcome)
    requires db.inTransaction || db.frames == []
    modifies db, counter
    ensures db.inTransaction == old(db.inTransaction) && db.frames == old(db.frames)
    ensures old(db.inTransaction) ==> db.begun == old(db.begun)
    ensures old(counter.sequence) <= counter.sequence
    ensures (db.data, outcome) == Meaning(Transaction(body, closeFails), old(db.data))
    ensures outcome == Threw ==> db.data == old(db.data)
    ensures outcome == Returned <==> !closeFails && KeptOfAll(body).1 == Returned
    ensures outcome == Returned ==> db.data == Apply(old(db.data), KeptOfAll(body).0)
    decreases body, 2
  {
    EffectOfAllIsKeptWrites(body, db.data);
    if db.inTransaction {
      outcome := WithSavepoint(db, counter, body, closeFails);
      return;
    }
    db.Begin();
    outcome := RunAll(db, counter, body);
    if outcome == Returned && !closeFails {
      db.Commit();
    } else {
      outcome := Threw;
      db.Rollback();
    }
  }

  /** The statements of an operation, up to the first throw. */
  method RunAll(db: Database, counter: Counter, body: seq<Stmt>) returns (outcome: Outcome)
    requires db.inTransaction
    modifies db, counter
    ensures db.inTransaction && db.frames == old(db.frames) && db.begun == old(db.begun)
    ensures old(counter.sequence) <= counter.sequence
    ensures (db.data, outcome) == MeaningOfAll(body, old(db.data))
    decreases body, 0
  {
    if body == [] { return Returned; }
    match body[0] {
      case Write(k, v) => db.data, outcome := db.data[k := v], Returned;
      case Throw => outcome := Threw;
      case Transaction(inner, closeFails) => outcome := WithTransaction(db, counter, inner, closeFails);
      case Guarded(inner) =>
        var ignored := RunAll(db, counter, inner);
        outcome := Returned;
    }
    if outcome == Returned {
      outcome := RunAll(db, counter, body[1..]);
    }
  }

  // ---------------------------------------------------------------- what survives

  datatype Update = Update(key: string, value: int)

  function Apply(data: Data, updates: seq<Update>): Data {
    if updates == [] then data
    else Apply(data, updates[..|updates| - 1])[updates[|updates| - 1].key := updates[|updates| - 1].value]
  }

  /** The writes that survive, in program order, and how the statement ends; read off the program
      alone, whatever the database holds. */
  function Kept(s: Stmt): (seq<Update>, Outcome)
    decreases s, 1
  {
    match s
    case Write(k, v) => ([Update(k, v)], Returned)
    case Throw => ([], Threw)
    case Transaction(body, closeFails) =>
      var (updates, outcome) := KeptOfAll(body);
      if outcome == Threw || closeFails then ([], Threw) else (updates, Returned)
    case Guarded(body) => (KeptOfAll(body).0, Returned)
  }

  function KeptOfAll(body: seq<Stmt>): (seq<Update>, Outcome)
    decreases body, 0
  {
    if body == [] then ([], Returned)
    else
      var (updates, outcome) := Kept(body[0]);
      if outcome == Threw then (updates, Threw)
      else
        var (more, last) := KeptOfAll(body[1..]);
        (updates + more, last)
  }

  lemma {:induction false} ApplyConcat(data: Data, a: seq<Update>, b: seq<Update>)
    ensures Apply(data, a + b) == Apply(Apply(data, a), b)
  {
    if b == [] {
      assert a + b == a;
    } else {
      assert (a + b)[..|a| + |b| - 1] == a + b[..|b| - 1];
      ApplyConcat(data, a, b[..|b| - 1]);
    }
  }

  /** A statement's effect is exactly its surviving writes, on every database: a call that throws has
      none, a call that returns has all of its operation's. */
  lemma {:induction false} EffectIsKeptWrites(s: Stmt, data: Data)
    ensures Meaning(s, data) == (Apply(data, Kept(s).0), Kept(s).1)
    decreases s, 1
  {
    match s {
      case Write(k, v) => assert [Update(k, v)][..0] == [];
      case Throw =>
      case Transaction(body, closeFails) => EffectOfAllIsKeptWrites(body, data);
      case Guarded(body) => EffectOfAllIsKeptWrites(body, data);
    }
  }

  lemma {:induction false} EffectOfAllIsKeptWrites(body: seq<Stmt>, data: Data)
    ensures MeaningOfAll(body, data) == (Apply(data, KeptOfAll(body).0), KeptOfAll(body).1)
    decreases body, 0
  {
    if body != [] {
      EffectIsKeptWrites(body[0], data);
      if Kept(body[0]).1 == Returned {
        EffectOfAllIsKeptWrites(body[1..], Meaning(body[0], data).0);
        ApplyConcat(data, Kept(body[0]).0, KeptOfAll(body[1..]).0);
      }
    }
  }
}
