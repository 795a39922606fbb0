/** backend/ses/suppression.go and backend/ses/suppression_sql.go: the two suppression
    lists, and the proof that callers cannot tell them apart.

    Each method is one critical section (or one SQL statement), so a sequence of `Op`s is
    an arbitrary interleaving of webhook, operator and sender calls.
 */
module Suppression {
  import opened Text
  import opened Wrappers

  const REASON_BOUNCE := "bounce"
  const REASON_COMPLAINT := "complaint"

  datatype Error = EmptyAddress | DatabaseFailure

  datatype Entry = Entry(email: string, reason: string, at: int)

  type Entries = map<string, Entry>

  // ----- Operations and answers --------------------------------------------

  datatype Op =
    | Add(email: string, reason: string)
    | IsSuppressed(email: string)
    | Remove(email: string)
    | Count

  /** What a caller learns from one operation; timestamps are not compared. */
  datatype Answer =
    | Done
    | Failed(error: Error)
    | Found(email: string, reason: string)
    | NotFound
    | Total(n: nat)

  function MemoryStep(m: Entries, op: Op, now: int): (Entries, Answer) {
    match op
    case Add(email, reason) =>
      var key := Normalize(email);
      if key == "" then (m, Failed(EmptyAddress)) else (m[key := Entry(key, reason, now)], Done)
    case IsSuppressed(email) =>
      var key := Normalize(email);
      (m, if key in m then Found(m[key].email, m[key].reason) else NotFound)
    case Remove(email) => (m - {Normalize(email)}, Done)
    case Count => (m, Total(|m|))
  }

  // ----- The in-memory list ------------------------------------------------

  class MemorySuppressionList {
    var entries: Entries

    constructor ()
      ensures entries == map[]
    {
      entries := map[];
    }

    method Add(email: string, reason: string, now: int) returns (err: Option<Error>)
      modifies this
      ensures (entries, Told(err))
              == MemoryStep(old(entries), Op.Add(email, reason), now)
      ensures if Normalize(email) == "" then err == Some(EmptyAddress) && entries == old(entries)
              else err.None? && entries == old(entries)[Normalize(email) := Entry(Normalize(email), reason, now)]
    {
      var key := Normalize(email);
      if key == "" {
        return Some(EmptyAddress);
      }
      entries := entries[key := Entry(key, reason, now)];
      return None;
    }

    method IsSuppressed(email: string) returns (ok: bool, entry: Option<Entry>)
      ensures ok == entry.Some?
      ensures entry == if Normalize(email) in entries then Some(entries[Normalize(email)]) else None
      ensures (if ok then Found(entry.value.email, entry.value.reason) else NotFound)
              == MemoryStep(entries, Op.IsSuppressed(email), 0).1
    {
      var key := Normalize(email);
      ok := key in entries;
      entry := if ok then Some(entries[key]) else None;
    }

    method Remove(email: string)
      modifies this
      ensures entries == MemoryStep(old(entries), Op.Remove(email), 0).0
      ensures entries == old(entries) - {Normalize(email)}
    {
      entries := entries - {Normalize(email)};
    }

    method Count() returns (n: nat)
      ensures Total(n) == MemoryStep(entries, Op.Count, 0).1
      ensures n == |entries|
    {
      n := |entries|;
    }
  }

  // ----- The SQL list ------------------------------------------------------

  /** One row of the table whose primary key is `email`. */
  datatype Row = Row(email: string, reason: string, at: int)

  ghost predicate PrimaryKey(rows: set<Row>) {
    forall r, s :: r in rows && s in rows && r.email == s.email ==> r == s
  }

  /** The table read as a map from key to entry. */
  ghost function View(rows: set<Row>): Entries
    requires PrimaryKey(rows)
  {
    map r | r in rows :: r.email := Entry(r.email, r.reason, r.at)
  }

  /** `INSERT … ON CONFLICT (email) DO UPDATE`. */
  function Upsert(rows: set<Row>, row: Row): set<Row> {
    (set r | r in rows && r.email != row.email) + {row}
  }

  function DeleteWhere(rows: set<Row>, key: string): set<Row> {
    set r | r in rows && r.email != key
  }

  lemma UpsertView(rows: set<Row>, row: Row)
    requires PrimaryKey(rows)
    ensures PrimaryKey(Upsert(rows, row))
    ensures View(Upsert(rows, row)) == View(rows)[row.email := Entry(row.email, row.reason, row.at)]
  {
    var after := Upsert(rows, row);
    assert row in after;
    assert forall r :: r in rows && r.email != row.email ==> r in after;
  }

  lemma DeleteView(rows: set<Row>, key: string)
    requires PrimaryKey(rows)
    ensures PrimaryKey(DeleteWhere(rows, key))
    ensures View(DeleteWhere(rows, key)) == View(rows) - {key}
  {
    var after := DeleteWhere(rows, key);
    assert forall r :: r in rows && r.email != key ==> r in after;
  }

  lemma {:induction false} ViewSize(rows: set<Row>)
    requires PrimaryKey(rows)
    ensures |View(rows)| == |rows|
  {
    if rows != {} {
      hide View, PrimaryKey;
      var row :| row in rows;
      var rest := rows - {row};
      ViewSize(rest);
      ViewOfOneMore(rows, row);
    }
  }

  lemma ViewOfOneMore(rows: set<Row>, row: Row)
    requires PrimaryKey(rows) && row in rows
    ensures PrimaryKey(rows - {row}) && row.email !in View(rows - {row})
    ensures View(rows) == View(rows - {row})[row.email := Entry(row.email, row.reason, row.at)]
  {}

  /** The answer a caller gets while the database is down. */
  function Outage(op: Op): Answer {
    match op
    case Add(email, _) => Failed(if Normalize(email) == "" then EmptyAddress else DatabaseFailure)
    case Count => Total(0)
    case _ => Failed(DatabaseFailure)
  }

  /** One statement of the list, or its loss to an outage. */
  ghost function SqlStep(rows: set<Row>, op: Op, now: int, up: bool): (set<Row>, Answer) {
    if !up then (rows, Outage(op))
    else
      match op
      case Add(email, reason) =>
        var key := Normalize(email);
        if key == "" then (rows, Failed(EmptyAddress)) else (Upsert(rows, Row(key, reason, now)), Done)
      case IsSuppressed(email) =>
        var key := Normalize(email);
        (rows, if r :| r in rows && r.email == key then Found(key, r.reason) else NotFound)
      case Remove(email) => (DeleteWhere(rows, Normalize(email)), Done)
      case Count => (rows, Total(|rows|))
  }

  /** What an error return tells a caller. */
  function Told(err: Option<Error>): Answer {
    if err.None? then Done else Failed(err.value)
  }

  class SQLSuppressionList {
    var rows: set<Row>

    ghost predicate Valid()
      reads this
    {
      PrimaryKey(rows)
    }

    /** `CREATE TABLE IF NOT EXISTS`: whatever rows are there stay there. */
    constructor (existing: set<Row>)
      requires PrimaryKey(existing)
      ensures Valid() && rows == existing
    {
      rows := existing;
    }

    /** In every method `up` says whether the database executed the statement. */
    method Add(email: string, reason: string, now: int, up: bool) returns (err: Option<Error>)
      requires Valid()
      modifies this
      ensures Valid()
      ensures (rows, Told(err)) == SqlStep(old(rows), Op.Add(email, reason), now, up)
      ensures up ==> (View(rows), Told(err)) == MemoryStep(old(View(rows)), Op.Add(email, reason), now)
      ensures var key := Normalize(email);
              && err == (if key == "" then Some(EmptyAddress) else if up then None else Some(DatabaseFailure))
              && forall r :: r in rows <==>
                   if err.None? then r == Row(key, reason, now) || (r in old(rows) && r.email != key) else r in old(rows)
    {
      var key := Normalize(email);
      if key == "" {
        return Some(EmptyAddress);
      }
      if !up {
        return Some(DatabaseFailure);
      }
      UpsertView(rows, Row(key, reason, now));
      rows := Upsert(rows, Row(key, reason, now));
      return None;
    }

    method IsSuppressed(email: string, up: bool) returns (ok: bool, entry: Option<Entry>, err: Option<Error>)
      requires Valid()
      ensures ok == entry.Some? && err == if up then None else Some(DatabaseFailure)
      ensures ok <==> up && exists r :: r in rows && r.email == Normalize(email)
      ensures ok ==> exists r :: r in rows && r.email == Normalize(email) == entry.value.email &&
                                 r.reason == entry.value.reason && r.at == entry.value.at
      ensures entry == if up && Normalize(email) in View(rows) then Some(View(rows)[Normalize(email)]) else None
      ensures (if err.Some? then Failed(err.value) else if ok then Found(entry.value.email, entry.value.reason) else NotFound)
              == SqlStep(rows, Op.IsSuppressed(email), 0, up).1
    {
      hide Normalize;
      var key := Normalize(email);
      if !up {
        return false, None, Some(DatabaseFailure);
      }
      var hits := set r | r in rows && r.email == key;
      if hits == {} {
        assert forall r :: r in rows && r.email == key ==> r in hits;
        return false, None, None;
      }
      var hit :| hit in hits;
      return true, Some(Entry(key, hit.reason, hit.at)), None;
    }

    method Remove(email: string, up: bool) returns (err: Option<Error>)
      requires Valid()
      modifies this
      ensures Valid()
      ensures (rows, Told(err)) == SqlStep(old(rows), Op.Remove(email), 0, up)
      ensures up ==> View(rows) == MemoryStep(old(View(rows)), Op.Remove(email), 0).0
      ensures err == if up then None else Some(DatabaseFailure)
      ensures forall r :: r in rows <==> r in old(rows) && (up ==> r.email != Normalize(email))
    {
      hide Normalize;
      if !up {
        return Some(DatabaseFailure);
      }
      DeleteView(rows, Normalize(email));
      rows := DeleteWhere(rows, Normalize(email));
      return None;
    }

    method Count(up: bool) returns (n: nat)
      requires Valid()
      ensures Total(n) == SqlStep(rows, Op.Count, 0, up).1
      ensures n == if up then |rows| else 0
      ensures up ==> n == |View(rows)|
    {
      ViewSize(rows);
      n := if up then |rows| else 0;
    }
  }

  // ----- The two lists are observationally equivalent ----------------------

  ghost function SqlAfter(rows: set<Row>, ops: seq<Op>, clock: seq<int>, up: seq<bool>, n: nat): set<Row>
    requires n <= |ops| == |clock| == |up|
  {
    if n == 0 then rows
    else SqlStep(SqlAfter(rows, ops, clock, up, n - 1), ops[n - 1], clock[n - 1], up[n - 1]).0
  }

  /** The memory list run on the operations marked in `up` alone. */
  function MemoryAfter(m: Entries, ops: seq<Op>, clock: seq<int>, up: seq<bool>, n: nat): Entries
    requires n <= |ops| == |clock| == |up|
  {
    if n == 0 then m
    else
      var prior := MemoryAfter(m, ops, clock, up, n - 1);
      if up[n - 1] then MemoryStep(prior, ops[n - 1], clock[n - 1]).0 else prior
  }

  ghost predicate SameUpToTime(m1: Entries, m2: Entries) {
    && m1.Keys == m2.Keys
    && forall k :: k in m1 ==> m1[k].email == m2[k].email && m1[k].reason == m2[k].reason
  }

  /** Every key is a non-empty fixed point of `Normalize` and is its entry's address. */
  ghost predicate WellKeyed(m: Entries) {
    forall k :: k in m ==> k != "" && Normalize(k) == k && m[k].email == k
  }

  lemma LookupInView(rows: set<Row>, key: string)
    requires PrimaryKey(rows)
    ensures key in View(rows) <==> exists r :: r in rows && r.email == key
    ensures forall r :: r in rows && r.email == key ==> View(rows)[key].reason == r.reason
  {}

  lemma StepAgrees(m: Entries, rows: set<Row>, op: Op, memoryNow: int, sqlNow: int)
    requires PrimaryKey(rows) && WellKeyed(m) && SameUpToTime(View(rows), m)
    ensures PrimaryKey(SqlStep(rows, op, sqlNow, true).0)
    ensures SameUpToTime(View(SqlStep(rows, op, sqlNow, true).0), MemoryStep(m, op, memoryNow).0)
    ensures SqlStep(rows, op, sqlNow, true).1 == MemoryStep(m, op, memoryNow).1
    ensures WellKeyed(MemoryStep(m, op, memoryNow).0)
  {
    hide Normalize, View, Upsert, DeleteWhere, PrimaryKey;
    match op
    case Add(email, reason) =>
      NormalizeIsIdempotent(email);
      UpsertView(rows, Row(Normalize(email), reason, sqlNow));
    case IsSuppressed(email) =>
      LookupInView(rows, Normalize(email));
    case Remove(email) =>
      DeleteView(rows, Normalize(email));
    case Count =>
      ViewSize(rows);
      assert |View(rows)| == |View(rows).Keys| == |m.Keys| == |m|;
  }

  lemma {:induction false} ListsStayAlike(m: Entries, rows: set<Row>, ops: seq<Op>, memoryClock: seq<int>,
                                          sqlClock: seq<int>, up: seq<bool>, n: nat)
    requires n <= |ops| == |memoryClock| == |sqlClock| == |up|
    requires PrimaryKey(rows) && WellKeyed(m) && SameUpToTime(View(rows), m)
    ensures PrimaryKey(SqlAfter(rows, ops, sqlClock, up, n)) && WellKeyed(MemoryAfter(m, ops, memoryClock, up, n))
    ensures SameUpToTime(View(SqlAfter(rows, ops, sqlClock, up, n)), MemoryAfter(m, ops, memoryClock, up, n))
  {
    hide Normalize, View, Upsert, DeleteWhere, PrimaryKey, SameUpToTime, WellKeyed, MemoryStep;
    if n > 0 {
      ListsStayAlike(m, rows, ops, memoryClock, sqlClock, up, n - 1);
      if up[n - 1] {
        StepAgrees(MemoryAfter(m, ops, memoryClock, up, n - 1), SqlAfter(rows, ops, sqlClock, up, n - 1), ops[n - 1],
                   memoryClock[n - 1], sqlClock[n - 1]);
      }
    }
  }

  /** Whatever the operations, the clocks and the database outages, the SQL list answers
      as the memory list that never saw the operations lost to an outage; and every key of
      either is a normalized, non-empty address equal to its entry's. */
  lemma ListsAgree(m: Entries, rows: set<Row>, ops: seq<Op>, memoryClock: seq<int>, sqlClock: seq<int>, up: seq<bool>, i: nat)
    requires i < |ops| == |memoryClock| == |sqlClock| == |up|
    requires PrimaryKey(rows) && WellKeyed(m) && SameUpToTime(View(rows), m)
    ensures SqlStep(SqlAfter(rows, ops, sqlClock, up, i), ops[i], sqlClock[i], up[i]).1
            == if up[i] then MemoryStep(MemoryAfter(m, ops, memoryClock, up, i), ops[i], memoryClock[i]).1
               else Outage(ops[i])
    ensures WellKeyed(MemoryAfter(m, ops, memoryClock, up, i))
  {
    hide Normalize, View, Upsert, DeleteWhere, PrimaryKey, SameUpToTime, WellKeyed, MemoryStep, MemoryAfter, SqlAfter;
    ListsStayAlike(m, rows, ops, memoryClock, sqlClock, up, i);
    if up[i] {
      StepAgrees(MemoryAfter(m, ops, memoryClock, up, i), SqlAfter(rows, ops, sqlClock, up, i), ops[i],
                 memoryClock[i], sqlClock[i]);
    }
  }

  // ----- What a list holds, read off its history ---------------------------

  /** The last executed operation about `key`: an addition with its reason, a removal, or none. */
  datatype Verdict = Untouched | Lifted | Suppressed(reason: string)

  function LastWord(ops: seq<Op>, up: seq<bool>, n: nat, key: string): Verdict
    requires n <= |ops| == |up|
  {
    if n == 0 then Untouched
    else
      match ops[n - 1]
      case Add(email, reason) =>
        if up[n - 1] && Normalize(email) == key then Suppressed(reason) else LastWord(ops, up, n - 1, key)
      case Remove(email) =>
        if up[n - 1] && Normalize(email) == key then Lifted else LastWord(ops, up, n - 1, key)
      case _ => LastWord(ops, up, n - 1, key)
  }

  /** An address is on the list exactly when the last word about its key was an addition,
      and then the list gives the reason of that addition. */
  lemma {:induction false} ListIsLastWord(m: Entries, ops: seq<Op>, clock: seq<int>, up: seq<bool>, n: nat, key: string)
    requires n <= |ops| == |clock| == |up| && key != ""
    ensures var after := MemoryAfter(m, ops, clock, up, n);
            match LastWord(ops, up, n, key)
            case Untouched => (key in after <==> key in m) && (key in m ==> after[key] == m[key])
            case Lifted => key !in after
            case Suppressed(reason) => key in after && after[key].email == key && after[key].reason == reason
  {
    if n > 0 {
      ListIsLastWord(m, ops, clock, up, n - 1, key);
    }
  }

  function KeysNamed(ops: seq<Op>, n: nat): set<string>
    requires n <= |ops|
  {
    if n == 0 then {}
    else KeysNamed(ops, n - 1) + if ops[n - 1].Add? then {Normalize(ops[n - 1].email)} else {}
  }

  lemma {:induction false} OnlyNamedKeys(ops: seq<Op>, clock: seq<int>, up: seq<bool>, n: nat)
    requires n <= |ops| == |clock| == |up|
    ensures MemoryAfter(map[], ops, clock, up, n).Keys <= KeysNamed(ops, n) - {""}
  {
    if n > 0 {
      OnlyNamedKeys(ops, clock, up, n - 1);
    }
  }

  function LiveKeys(ops: seq<Op>, up: seq<bool>, n: nat): set<string>
    requires n <= |ops| == |up|
  {
    set k | k in KeysNamed(ops, n) && k != "" && LastWord(ops, up, n, k).Suppressed?
  }

  /** `Count` on a list that started empty is the number of distinct live keys. */
  lemma CountIsLiveAddresses(ops: seq<Op>, clock: seq<int>, up: seq<bool>, n: nat, now: int)
    requires n <= |ops| == |clock| == |up|
    ensures MemoryStep(MemoryAfter(map[], ops, clock, up, n), Op.Count, now).1
            == Total(|LiveKeys(ops, up, n)|)
  {
    var after := MemoryAfter(map[], ops, clock, up, n);
    OnlyNamedKeys(ops, clock, up, n);
    forall k | k in KeysNamed(ops, n) && k != ""
      ensures k in after <==> LastWord(ops, up, n, k).Suppressed?
    {
      ListIsLastWord(map[], ops, clock, up, n, k);
    }
    assert after.Keys == LiveKeys(ops, up, n);
    assert |after| == |after.Keys|;
  }
}
