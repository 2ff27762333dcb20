/** The one-time prekey pool of presidium-storage/src/store.rs. */
module PrekeyPool {
  import opened Results
  import opened Terms

  datatype Kind = Signed | OneTime
  datatype PreKey = PreKey(keyId: int, kind: Kind, material: Bytes)

  /** The prekeys table, by primary key. */
  type Table = map<int, PreKey>

  predicate Keyed(rows: Table) {
    forall id :: id in rows ==> rows[id].keyId == id
  }

  function IdsOf(rows: Table, kind: Kind): set<int> {
    set id | id in rows && rows[id].kind == kind
  }

  predicate IsOldest(rows: Table, id: int) {
    id in IdsOf(rows, OneTime) && forall j :: j in IdsOf(rows, OneTime) ==> id <= j
  }

  lemma {:induction false} MinimumExists(s: set<int>)
    requires s != {}
    ensures exists m :: m in s && forall j :: j in s ==> m <= j
  {
    assert (forall x :: x !in s) ==> s == {};
    var x :| x in s;
    var t := s - {x};
    assert forall j :: j in s ==> j == x || j in t;
    if t == {} {
      assert forall j :: j in s ==> x <= j;
    } else {
      MinimumExists(t);
      var m :| m in t && forall j :: j in t ==> m <= j;
      var least := if x < m then x else m;
      assert least in s && forall j :: j in s ==> least <= j;
    }
  }

  lemma OldestExists(rows: Table)
    requires IdsOf(rows, OneTime) != {}
    ensures exists id :: IsOldest(rows, id)
  {
    MinimumExists(IdsOf(rows, OneTime));
    var m :| m in IdsOf(rows, OneTime) && forall j :: j in IdsOf(rows, OneTime) ==> m <= j;
    assert IsOldest(rows, m);
  }

  /** The id that ORDER BY key_id LIMIT 1 selects among the one-time prekeys. */
  function Oldest(rows: Table): (r: Option<int>)
    ensures r.None? <==> IdsOf(rows, OneTime) == {}
    ensures r.Some? ==> IsOldest(rows, r.value)
  {
    if IdsOf(rows, OneTime) == {} then None
    else
      OldestExists(rows);
      var id :| IsOldest(rows, id);
      Some(id)
  }

  datatype PoolOp = Save(record: PreKey) | Take | Delete(id: int)

  function PoolStep(rows: Table, op: PoolOp): (Option<PreKey>, Table) {
    match op
    case Save(record) => (None, rows[record.keyId := record])
    case Take =>
      (match Oldest(rows)
       case None => (None, rows)
       case Some(id) => (Some(rows[id]), rows - {id}))
    case Delete(id) => (None, rows - {id})
  }

  // ---------------------------------------------------------------- runs

  function PoolRun(rows: Table, ops: seq<PoolOp>): Table
    decreases |ops|
  {
    if ops == [] then rows else PoolRun(PoolStep(rows, ops[0]).1, ops[1..])
  }

  function Handed(out: Option<PreKey>): seq<PreKey> {
    if out.Some? then [out.value] else []
  }

  /** The prekeys handed out by a run, in order. */
  function Taken(rows: Table, ops: seq<PoolOp>): seq<PreKey>
    decreases |ops|
  {
    if ops == [] then []
    else
      var (out, rows') := PoolStep(rows, ops[0]);
      Handed(out) + Taken(rows', ops[1..])
  }

  function SavedOneTime(ops: seq<PoolOp>): nat {
    if ops == [] then 0
    else (if ops[0].Save? && ops[0].record.kind.OneTime? then 1 else 0) + SavedOneTime(ops[1..])
  }

  /** How many deletions of a run hit a one-time prekey. */
  function DeletedOneTime(rows: Table, ops: seq<PoolOp>): nat
    decreases |ops|
  {
    if ops == [] then 0
    else (if ops[0].Delete? && ops[0].id in IdsOf(rows, OneTime) then 1 else 0)
         + DeletedOneTime(PoolStep(rows, ops[0]).1, ops[1..])
  }

  /** No save uses an id in `known` or one that an earlier save used. */
  predicate NoReuse(known: set<int>, ops: seq<PoolOp>)
    decreases |ops|
  {
    ops != [] ==>
      if ops[0].Save? then ops[0].record.keyId !in known && NoReuse(known + {ops[0].record.keyId}, ops[1..])
      else NoReuse(known, ops[1..])
  }

  lemma RemovedIds(rows: Table, id: int)
    ensures IdsOf(rows - {id}, OneTime) == IdsOf(rows, OneTime) - {id}
  {
  }

  lemma SavedIds(rows: Table, record: PreKey)
    requires record.keyId !in rows
    ensures IdsOf(rows[record.keyId := record], OneTime)
         == IdsOf(rows, OneTime) + (if record.kind.OneTime? then {record.keyId} else {})
  {
  }

  lemma StepCounts(rows: Table, op: PoolOp)
    requires op.Save? ==> op.record.keyId !in rows
    ensures var (out, rows') := PoolStep(rows, op);
      |IdsOf(rows', OneTime)| + (if out.Some? then 1 else 0)
        + (if op.Delete? && op.id in IdsOf(rows, OneTime) then 1 else 0)
        == |IdsOf(rows, OneTime)| + (if op.Save? && op.record.kind.OneTime? then 1 else 0)
  {
    match op {
      case Save(record) => SavedIds(rows, record);
      case Take =>
        if Oldest(rows).Some? { RemovedIds(rows, Oldest(rows).value); }
      case Delete(id) => RemovedIds(rows, id);
    }
  }

  lemma StepKeys(rows: Table, op: PoolOp)
    requires Keyed(rows)
    ensures var (out, rows') := PoolStep(rows, op);
      && Keyed(rows')
      && (out.Some? ==> out.value.kind.OneTime? && out.value.keyId in rows && out.value.keyId !in rows')
      && rows'.Keys <= rows.Keys + (if op.Save? then {op.record.keyId} else {})
      && (forall id :: id in IdsOf(rows, Signed) && op != Delete(id) && !(op.Save? && op.record.keyId == id) ==>
            id in IdsOf(rows', Signed) && rows'[id] == rows[id])
  {
  }

  lemma {:induction false} SignedSurvive(rows: Table, known: set<int>, ops: seq<PoolOp>)
    requires Keyed(rows) && rows.Keys <= known && NoReuse(known, ops)
    ensures forall id :: id in IdsOf(rows, Signed) && Delete(id) !in ops ==>
      id in PoolRun(rows, ops) && PoolRun(rows, ops)[id] == rows[id]
    decreases |ops|
  {
    if ops == [] {
    } else {
      StepKeys(rows, ops[0]);
      SignedSurvive(PoolStep(rows, ops[0]).1, if ops[0].Save? then known + {ops[0].record.keyId} else known, ops[1..]);
      assert forall id :: Delete(id) !in ops ==> ops[0] != Delete(id) && Delete(id) !in ops[1..];
    }
  }

  lemma {:induction false} TakenOnce(rows: Table, known: set<int>, ops: seq<PoolOp>)
    requires Keyed(rows) && rows.Keys <= known && NoReuse(known, ops)
    ensures var taken := Taken(rows, ops);
      && (forall i :: 0 <= i < |taken| ==>
            taken[i].kind.OneTime? && (taken[i].keyId in rows || taken[i].keyId !in known))
      && (forall i, j :: 0 <= i < j < |taken| ==> taken[i].keyId != taken[j].keyId)
    decreases |ops|
  {
    if ops == [] {
    } else {
      StepKeys(rows, ops[0]);
      var (out, rows') := PoolStep(rows, ops[0]);
      TakenOnce(rows', if ops[0].Save? then known + {ops[0].record.keyId} else known, ops[1..]);
      assert Taken(rows, ops) == Handed(out) + Taken(rows', ops[1..]);
    }
  }

  lemma {:induction false} PoolBalance(rows: Table, known: set<int>, ops: seq<PoolOp>)
    requires Keyed(rows) && rows.Keys <= known && NoReuse(known, ops)
    ensures |IdsOf(PoolRun(rows, ops), OneTime)| + |Taken(rows, ops)| + DeletedOneTime(rows, ops)
         == |IdsOf(rows, OneTime)| + SavedOneTime(ops)
    decreases |ops|
  {
    if ops == [] {
    } else {
      StepCounts(rows, ops[0]);
      StepKeys(rows, ops[0]);
      PoolBalance(PoolStep(rows, ops[0]).1, if ops[0].Save? then known + {ops[0].record.keyId} else known, ops[1..]);
    }
  }

  /** The prekey pool. From any table and over any saves, takes and deletions that reuse no id: no
      one-time prekey is handed out twice, only one-time prekeys are handed out, the one-time count is
      what was there plus saved minus taken minus deleted, and a signed prekey that nobody deletes
      survives every take. */
  lemma PoolAccounting(rows: Table, known: set<int>, ops: seq<PoolOp>)
    requires Keyed(rows) && rows.Keys <= known && NoReuse(known, ops)
    ensures var taken, after := Taken(rows, ops), PoolRun(rows, ops);
      && (forall i :: 0 <= i < |taken| ==> taken[i].kind.OneTime?)
      && (forall i, j :: 0 <= i < j < |taken| ==> taken[i].keyId != taken[j].keyId)
      && |IdsOf(after, OneTime)| + |taken| + DeletedOneTime(rows, ops) == |IdsOf(rows, OneTime)| + SavedOneTime(ops)
      && (forall id :: id in IdsOf(rows, Signed) && Delete(id) !in ops ==> id in after && after[id] == rows[id])
  {
    TakenOnce(rows, known, ops);
    PoolBalance(rows, known, ops);
    SignedSurvive(rows, known, ops);
  }

  // ---------------------------------------------------------------- one record

  predicate Untouched(id: int, ops: seq<PoolOp>) {
    forall i :: 0 <= i < |ops| ==> ops[i] != Delete(id) && !(ops[i].Save? && ops[i].record.keyId == id)
  }

  /** A record that nobody saves over or deletes stays in the table, or is handed out if it is one-time. */
  lemma {:induction false} HeldOrHanded(rows: Table, ops: seq<PoolOp>, record: PreKey)
    requires Keyed(rows) && record.keyId in rows && rows[record.keyId] == record && Untouched(record.keyId, ops)
    ensures var after := PoolRun(rows, ops);
      if record.keyId in after then after[record.keyId] == record
      else record.kind.OneTime? && record in Taken(rows, ops)
    decreases |ops|
  {
    if ops == [] {
    } else {
      StepKeys(rows, ops[0]);
      var (out, rows') := PoolStep(rows, ops[0]);
      assert ops[0] != Delete(record.keyId) && !(ops[0].Save? && ops[0].record.keyId == record.keyId);
      assert forall i :: 0 <= i < |ops[1..]| ==> ops[1..][i] == ops[i + 1];
      if record.keyId in rows' {
        HeldOrHanded(rows', ops[1..], record);
      } else {
        assert out == Some(record);
        AbsentStaysAbsent(rows', ops[1..], record.keyId);
      }
    }
  }

  lemma {:induction false} AbsentStaysAbsent(rows: Table, ops: seq<PoolOp>, id: int)
    requires id !in rows && forall i :: 0 <= i < |ops| ==> !(ops[i].Save? && ops[i].record.keyId == id)
    ensures id !in PoolRun(rows, ops)
    decreases |ops|
  {
    if ops == [] {
    } else {
      assert forall i :: 0 <= i < |ops[1..]| ==> ops[1..][i] == ops[i + 1];
      AbsentStaysAbsent(PoolStep(rows, ops[0]).1, ops[1..], id);
    }
  }

  /** The last word on a record. Over any run from any table: what was saved last under an id, of either kind
      and over whatever stood there, is what the table holds under it, unless it was deleted since or, being
      one-time, handed out; and an id that was deleted and not saved again is gone. */
  lemma LastWord(rows: Table, before: seq<PoolOp>, op: PoolOp, since: seq<PoolOp>)
    requires Keyed(rows)
    ensures op.Save? && Untouched(op.record.keyId, since) ==>
      var start := PoolStep(PoolRun(rows, before), op).1; var after := PoolRun(start, since);
      if op.record.keyId in after then after[op.record.keyId] == op.record
      else op.record.kind.OneTime? && op.record in Taken(start, since)
    ensures op.Delete? && (forall i :: 0 <= i < |since| ==> !(since[i].Save? && since[i].record.keyId == op.id)) ==>
      op.id !in PoolRun(PoolStep(PoolRun(rows, before), op).1, since)
  {
    RunKeyed(rows, before);
    var now := PoolRun(rows, before);
    StepKeys(now, op);
    if op.Save? && Untouched(op.record.keyId, since) {
      HeldOrHanded(PoolStep(now, op).1, since, op.record);
    }
    if op.Delete? && forall i :: 0 <= i < |since| ==> !(since[i].Save? && since[i].record.keyId == op.id) {
      AbsentStaysAbsent(PoolStep(now, op).1, since, op.id);
    }
  }

  // ---------------------------------------------------------------- the order of takes

  /** Every one-time prekey saved along the run has an id above all ids taken before it. */
  predicate SavesAbove(floor: int, rows: Table, ops: seq<PoolOp>)
    decreases |ops|
  {
    ops != [] ==>
      var (out, rows') := PoolStep(rows, ops[0]);
      && (ops[0].Save? && ops[0].record.kind.OneTime? ==> ops[0].record.keyId > floor)
      && SavesAbove(if out.Some? then out.value.keyId else floor, rows', ops[1..])
  }

  predicate IncreasingAbove(floor: int, taken: seq<PreKey>) {
    && (forall i :: 0 <= i < |taken| ==> taken[i].keyId > floor)
    && (forall i, j :: 0 <= i < j < |taken| ==> taken[i].keyId < taken[j].keyId)
  }

  predicate AllAbove(floor: int, rows: Table) {
    forall id :: id in IdsOf(rows, OneTime) ==> id > floor
  }

  lemma StepAbove(floor: int, rows: Table, op: PoolOp)
    requires Keyed(rows) && AllAbove(floor, rows) && (op.Save? && op.record.kind.OneTime? ==> op.record.keyId > floor)
    ensures var (out, rows') := PoolStep(rows, op);
      && (out.Some? ==> out.value.keyId > floor)
      && AllAbove(if out.Some? then out.value.keyId else floor, rows')
  {
    match op {
      case Save(record) =>
        var rows' := rows[record.keyId := record];
        forall id | id in IdsOf(rows', OneTime)
          ensures id > floor
        {
          if id != record.keyId {
            assert id in IdsOf(rows, OneTime);
          }
        }
      case Take =>
        if Oldest(rows).Some? {
          RemovedIds(rows, Oldest(rows).value);
        }
      case Delete(id) => RemovedIds(rows, id);
    }
  }

  lemma IncreasingExtends(floor: int, first: PreKey, rest: seq<PreKey>)
    requires first.keyId > floor && IncreasingAbove(first.keyId, rest)
    ensures IncreasingAbove(floor, [first] + rest)
  {
  }

  /** Takes return strictly increasing ids as long as nobody saves a one-time prekey below an id
      already taken; in particular takes with no save between them. */
  lemma {:induction false} TakesIncrease(floor: int, rows: Table, ops: seq<PoolOp>)
    requires Keyed(rows) && AllAbove(floor, rows) && SavesAbove(floor, rows, ops)
    ensures IncreasingAbove(floor, Taken(rows, ops))
    decreases |ops|
  {
    if ops == [] {
    } else {
      var (out, rows') := PoolStep(rows, ops[0]);
      StepKeys(rows, ops[0]);
      StepAbove(floor, rows, ops[0]);
      TakesIncrease(if out.Some? then out.value.keyId else floor, rows', ops[1..]);
      if out.Some? {
        IncreasingExtends(floor, out.value, Taken(rows', ops[1..]));
      } else {
        assert Taken(rows, ops) == Taken(rows', ops[1..]);
      }
    }
  }

  /** The one-time ids at or below `bound` in a pool, after an operation that takes nothing. */
  function LeftAfter(bound: int, left: set<int>, op: PoolOp): set<int> {
    match op
    case Save(r) => if r.kind.OneTime? && r.keyId <= bound then left + {r.keyId} else left - {r.keyId}
    case Take => left
    case Delete(id) => left - {id}
  }

  /** The one-time ids at or below `bound` that these operations leave behind in a pool without any. */
  function LeftAtMost(bound: int, ops: seq<PoolOp>): set<int> {
    if ops == [] then {} else LeftAfter(bound, LeftAtMost(bound, ops[..|ops| - 1]), ops[|ops| - 1])
  }

  function Low(rows: Table, bound: int): set<int> {
    set id | id in rows && rows[id].kind.OneTime? && id <= bound
  }

  lemma {:induction false} LowIdsAreLeft(bound: int, rows: Table, ops: seq<PoolOp>)
    requires Low(rows, bound) == {} && forall i :: 0 <= i < |ops| ==> !ops[i].Take?
    ensures Low(PoolRun(rows, ops), bound) == LeftAtMost(bound, ops)
    decreases |ops|
  {
    if ops == [] {
    } else {
      var n := |ops| - 1;
      LowIdsAreLeft(bound, rows, ops[..n]);
      RunLast(rows, ops);
    }
  }

  lemma {:induction false} RunLast(rows: Table, ops: seq<PoolOp>)
    requires ops != []
    ensures PoolRun(rows, ops) == PoolStep(PoolRun(rows, ops[..|ops| - 1]), ops[|ops| - 1]).1
    decreases |ops|
  {
    if |ops| == 1 {
    } else {
      RunLast(PoolStep(rows, ops[0]).1, ops[1..]);
      assert ops[1..][..|ops| - 2] == ops[..|ops| - 1][1..];
    }
  }

  /** The oldest one-time prekey lies above a bound exactly when nothing lies at or below it. */
  lemma OldestAboveIff(rows: Table, bound: int)
    requires IdsOf(rows, OneTime) != {}
    ensures Oldest(rows).value > bound <==> Low(rows, bound) == {}
  {
    var oldest := Oldest(rows).value;
    assert oldest in IdsOf(rows, OneTime);
    assert oldest <= bound ==> oldest in Low(rows, bound);
    assert IsOldest(rows, oldest);
    forall id | id in Low(rows, bound)
      ensures oldest <= bound
    {
      assert id in IdsOf(rows, OneTime);
    }
  }

  lemma NothingLowAfterTake(rows: Table)
    requires IdsOf(rows, OneTime) != {}
    ensures Low(PoolStep(rows, Take).1, Oldest(rows).value) == {}
  {
    assert forall id :: id in rows && rows[id].kind.OneTime? ==> id in IdsOf(rows, OneTime);
  }

  /** When two consecutive takes increase: whatever is saved and deleted between them, the second returns
      a larger id than the first if and only if no one-time prekey at or below that id was saved in
      between and left there. */
  lemma ConsecutiveTakesIncreaseIff(rows: Table, between: seq<PoolOp>)
    requires Keyed(rows) && forall i :: 0 <= i < |between| ==> !between[i].Take?
    requires PoolStep(rows, Take).0.Some? && PoolStep(PoolRun(PoolStep(rows, Take).1, between), Take).0.Some?
    ensures var (first, rows') := PoolStep(rows, Take);
      var second := PoolStep(PoolRun(rows', between), Take).0;
      second.value.keyId > first.value.keyId <==> LeftAtMost(first.value.keyId, between) == {}
  {
    var (first, rows') := PoolStep(rows, Take);
    var bound, after := first.value.keyId, PoolRun(rows', between);
    StepKeys(rows, Take);
    NothingLowAfterTake(rows);
    LowIdsAreLeft(bound, rows', between);
    RunKeyed(rows', between);
    OldestAboveIff(after, bound);
  }

  // ---------------------------------------------------------------- the order of all takes

  predicate IncreasingFrom(last: Option<int>, taken: seq<PreKey>)
    decreases |taken|
  {
    taken != [] ==>
      && (last.Some? ==> taken[0].keyId > last.value)
      && IncreasingFrom(Some(taken[0].keyId), taken[1..])
  }

  lemma {:induction false} IncreasingFromIff(last: Option<int>, taken: seq<PreKey>)
    ensures IncreasingFrom(last, taken) <==>
      && (last.Some? ==> forall i :: 0 <= i < |taken| ==> taken[i].keyId > last.value)
      && (forall i, j :: 0 <= i < j < |taken| ==> taken[i].keyId < taken[j].keyId)
    decreases |taken|
  {
    if taken == [] {
    } else {
      var rest := taken[1..];
      IncreasingFromIff(Some(taken[0].keyId), rest);
      assert forall i :: 0 <= i < |rest| ==> rest[i] == taken[i + 1];
      assert forall i :: 0 < i < |taken| ==> taken[i] == rest[i - 1];
    }
  }

  /** At every take that hands something out, nothing at or below the id handed out last has been saved
      since and left: `left` lists what has. */
  predicate NothingLowLeft(last: Option<int>, left: set<int>, rows: Table, ops: seq<PoolOp>)
    decreases |ops|
  {
    ops != [] ==>
      var (out, rows') := PoolStep(rows, ops[0]);
      if out.Some? then left == {} && NothingLowLeft(Some(out.value.keyId), {}, rows', ops[1..])
      else
        NothingLowLeft(last, if last.Some? then LeftAfter(last.value, left, ops[0]) else {}, rows', ops[1..])
  }

  lemma LowStep(bound: int, rows: Table, op: PoolOp)
    requires PoolStep(rows, op).0.None?
    ensures Low(PoolStep(rows, op).1, bound) == LeftAfter(bound, Low(rows, bound), op)
  {
  }

  lemma {:induction false} IncreasingIffNothingLow(last: Option<int>, left: set<int>, rows: Table, ops: seq<PoolOp>)
    requires Keyed(rows) && left == (if last.Some? then Low(rows, last.value) else {})
    ensures IncreasingFrom(last, Taken(rows, ops)) <==> NothingLowLeft(last, left, rows, ops)
    decreases |ops|
  {
    if ops == [] {
    } else {
      StepKeys(rows, ops[0]);
      var (out, rows') := PoolStep(rows, ops[0]);
      var rest := Taken(rows', ops[1..]);
      if out.Some? {
        NothingLowAfterTake(rows);
        if last.Some? {
          OldestAboveIff(rows, last.value);
        }
        IncreasingIffNothingLow(Some(out.value.keyId), {}, rows', ops[1..]);
        assert Taken(rows, ops) == [out.value] + rest && ([out.value] + rest)[1..] == rest;
      } else {
        if last.Some? {
          LowStep(last.value, rows, ops[0]);
        }
        IncreasingIffNothingLow(last, if last.Some? then Low(rows', last.value) else {}, rows', ops[1..]);
        assert Taken(rows, ops) == rest;
      }
    }
  }

  /** When all takes increase: over any saves, takes and deletions from any table, the ids handed out
      increase strictly if and only if, at every take, no one-time prekey at or below the id handed out
      before it has been saved since and left there. */
  lemma TakesIncreaseIff(rows: Table, ops: seq<PoolOp>)
    requires Keyed(rows)
    ensures (forall i, j :: 0 <= i < j < |Taken(rows, ops)| ==> Taken(rows, ops)[i].keyId < Taken(rows, ops)[j].keyId)
      <==> NothingLowLeft(None, {}, rows, ops)
  {
    IncreasingFromIff(None, Taken(rows, ops));
    IncreasingIffNothingLow(None, {}, rows, ops);
  }

  lemma {:induction false} RunKeyed(rows: Table, ops: seq<PoolOp>)
    requires Keyed(rows)
    ensures Keyed(PoolRun(rows, ops))
    decreases |ops|
  {
    if ops == [] {
    } else {
      RunKeyed(PoolStep(rows, ops[0]).1, ops[1..]);
    }
  }

  lemma TakeOnly(rows: Table, id: int)
    requires IdsOf(rows, OneTime) == {id}
    ensures PoolStep(rows, Take) == (Some(rows[id]), rows - {id})
  {
    assert Oldest(rows).value in IdsOf(rows, OneTime);
  }

  /** Without that, order and uniqueness fail: a prekey saved late under a smaller id is handed out after
      a larger one, and one saved again under the id of a taken one is handed out a second time. */
  lemma LateSaveBreaksOrder(x: PreKey, y: PreKey)
    requires x.kind.OneTime? && y.kind.OneTime?
    ensures Taken(map[], [Save(x), Take, Save(y), Take]) == [x, y]
  {
    var t1: Table := map[x.keyId := x];
    var t2: Table := map[y.keyId := y];
    assert IdsOf(t1, OneTime) == {x.keyId} && IdsOf(t2, OneTime) == {y.keyId};
    TakeOnly(t1, x.keyId);
    TakeOnly(t2, y.keyId);
    var ops := [Save(x), Take, Save(y), Take];
    assert ops[1..] == [Take, Save(y), Take] && ops[1..][1..] == [Save(y), Take] && [Save(y), Take][1..] == [Take];
    assert PoolStep(map[], Save(x)).1 == t1;
    assert t1 - {x.keyId} == map[];
    assert PoolStep(map[], Save(y)).1 == t2;
    assert Taken(t2, [Take]) == [y] + Taken(t2 - {y.keyId}, []);
    assert Taken(map[], [Save(y), Take]) == [y];
    assert Taken(t1, [Take, Save(y), Take]) == [x] + Taken(map[], [Save(y), Take]);
  }

  // ---------------------------------------------------------------- the live table

  lemma RunExtends(rows: Table, ops: seq<PoolOp>, op: PoolOp)
    ensures PoolRun(rows, ops + [op]) == PoolStep(PoolRun(rows, ops), op).1
  {
    RunLast(rows, ops + [op]);
    assert (ops + [op])[..|ops + [op]| - 1] == ops;
  }

  lemma {:induction false} TakenExtends(rows: Table, ops: seq<PoolOp>, op: PoolOp)
    ensures Taken(rows, ops + [op]) == Taken(rows, ops) + Handed(PoolStep(PoolRun(rows, ops), op).0)
    decreases |ops|
  {
    if ops == [] {
      assert ops + [op] == [op] && [op][1..] == [];
      assert Taken(PoolStep(rows, op).1, []) == [];
    } else {
      var rows' := PoolStep(rows, ops[0]).1;
      assert (ops + [op])[0] == ops[0] && (ops + [op])[1..] == ops[1..] + [op];
      TakenExtends(rows', ops[1..], op);
      assert Taken(rows, ops + [op]) == Handed(PoolStep(rows, ops[0]).0) + Taken(rows', ops[1..] + [op]);
    }
  }

  lemma {:induction false} TakeReusesNothing(known: set<int>, ops: seq<PoolOp>)
    requires NoReuse(known, ops)
    ensures NoReuse(known, ops + [Take])
    decreases |ops|
  {
    if ops == [] {
    } else {
      assert (ops + [Take])[0] == ops[0] && (ops + [Take])[1..] == ops[1..] + [Take];
      TakeReusesNothing(if ops[0].Save? then known + {ops[0].record.keyId} else known, ops[1..]);
    }
  }

  /** The table as the store holds it. `history` lists the calls since it was created. */
  class PrekeyStore {
    var rows: Table
    ghost var history: seq<PoolOp>

    ghost predicate Valid()
      reads this
    {
      rows == PoolRun(map[], history)
    }

    constructor ()
      ensures Valid() && history == []
    {
      rows, history := map[], [];
    }

    method SavePrekey(record: PreKey)
      requires Valid()
      modifies this
      ensures Valid() && history == old(history) + [Save(record)]
    {
      RunExtends(map[], history, Save(record));
      rows, history := rows[record.keyId := record], history + [Save(record)];
    }

    /** Hands out the oldest one-time prekey and removes it; as long as no id was saved twice, it is none
        that was ever handed out before. */
    method TakeOneTimePrekey() returns (taken: Option<PreKey>)
      requires Valid()
      modifies this
      ensures Valid() && history == old(history) + [Take]
      ensures taken.None? <==> IdsOf(old(rows), OneTime) == {}
      ensures taken.Some? ==> exists id :: IsOldest(old(rows), id) && taken.value == old(rows)[id]
      ensures NoReuse({}, old(history)) && taken.Some? ==>
        forall i :: 0 <= i < |Taken(map[], old(history))| ==> Taken(map[], old(history))[i].keyId != taken.value.keyId
    {
      var oldest := Oldest(rows);
      taken := None;
      RunExtends(map[], history, Take);
      TakenExtends(map[], history, Take);
      if oldest.Some? {
        taken := Some(rows[oldest.value]);
        rows := rows - {oldest.value};
      }
      ghost var before := Taken(map[], history);
      if NoReuse({}, history) && taken.Some? {
        TakeReusesNothing({}, history);
        PoolAccounting(map[], {}, history + [Take]);
        assert Taken(map[], history + [Take]) == before + [taken.value];
        assert forall i :: 0 <= i < |before| ==> (before + [taken.value])[i] == before[i];
        assert (before + [taken.value])[|before|] == taken.value;
      }
      history := history + [Take];
    }

    method DeletePrekey(id: int)
      requires Valid()
      modifies this
      ensures Valid() && history == old(history) + [Delete(id)]
    {
      RunExtends(map[], history, Delete(id));
      rows, history := rows - {id}, history + [Delete(id)];
    }

    /** The rows of a kind; as long as no id was saved twice, the one-time prekeys number those saved less
        those taken and those deleted. */
    method CountPrekeys(kind: Kind) returns (n: nat)
      requires Valid()
      ensures n == |IdsOf(rows, kind)|
      ensures kind.OneTime? && NoReuse({}, history) ==>
        n == SavedOneTime(history) - |Taken(map[], history)| - DeletedOneTime(map[], history)
    {
      n := |IdsOf(rows, kind)|;
      if kind.OneTime? && NoReuse({}, history) {
        PoolAccounting(map[], {}, history);
      }
    }
  }
}
