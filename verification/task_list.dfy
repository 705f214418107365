/** The task record and the list transitions the dashboard applies to its
    local copy of the user's tasks. Entries are identified by `_id`, which
    the model calls `id`; nothing in the list itself enforces that ids are
    distinct (see `CreateKeepsUniqueIdsIff`). */
module TaskList {
  import opened Wrappers

  /** A task as the server returns it. Every field is the JSON string the
      client receives; the model inspects only `id`, `title` and `status`. */
  datatype Task = Task(
    id: string,
    title: string,
    status: string,
    dueDate: string,
    priority: string,
    createdAt: string)

  /** Some entry of `ts` carries the id `id`. */
  predicate HasId(ts: seq<Task>, id: string) {
    exists i :: 0 <= i < |ts| && ts[i].id == id
  }

  /** How many entries of `ts` carry the id `id`. */
  function Count(ts: seq<Task>, id: string): nat {
    if ts == [] then 0 else (if ts[0].id == id then 1 else 0) + Count(ts[1..], id)
  }

  /** No two entries share an id: what React's `key={task._id}` assumes. */
  predicate UniqueIds(ts: seq<Task>) {
    forall i, j :: 0 <= i < j < |ts| ==> ts[i].id != ts[j].id
  }

  lemma {:induction false} CountPositiveIff(ts: seq<Task>, id: string)
    ensures Count(ts, id) > 0 <==> HasId(ts, id)
  {
    if ts != [] {
      CountPositiveIff(ts[1..], id);
      if HasId(ts[1..], id) {
        var i :| 0 <= i < |ts[1..]| && ts[1..][i].id == id;
        assert ts[i + 1].id == id;
      }
      if HasId(ts, id) && ts[0].id != id {
        var i :| 0 <= i < |ts| && ts[i].id == id;
        assert ts[1..][i - 1].id == id;
      }
    }
  }

  /** Replace-all: a successful fetch adopts the server's list verbatim;
      a failed one leaves the local list alone. */
  function Reload(ts: seq<Task>, fetched: Response<seq<Task>>): (r: seq<Task>)
    ensures fetched.Ok? ==> r == fetched.value
    ensures fetched.Failed? ==> r == ts
  {
    match fetched
    case Ok(server) => server
    case Failed => ts
  }

  /** Create: `[task, ...prev]`. There is no check for an entry that already
      carries `t.id`. */
  function Prepend(ts: seq<Task>, t: Task): (r: seq<Task>)
    ensures |r| == |ts| + 1 && r[0] == t
    ensures forall i :: 0 <= i < |ts| ==> r[i + 1] == ts[i]
    ensures Count(r, t.id) == Count(ts, t.id) + 1
  {
    assert ([t] + ts)[1..] == ts;
    [t] + ts
  }

  /** Update: `prev.map(x => x._id === id ? v : x)`. */
  function ReplaceWhere(ts: seq<Task>, id: string, v: Task): (r: seq<Task>)
    ensures |r| == |ts|
    ensures forall i :: 0 <= i < |ts| ==> r[i] == (if ts[i].id == id then v else ts[i])
    ensures !HasId(ts, id) ==> r == ts
  {
    if ts == [] then []
    else [if ts[0].id == id then v else ts[0]] + ReplaceWhere(ts[1..], id, v)
  }

  /** Delete: `prev.filter(x => x._id !== id)`. */
  function RemoveWhere(ts: seq<Task>, id: string): (r: seq<Task>)
    ensures forall x {:trigger x in r} :: x in r <==> x in ts && x.id != id
    ensures |r| == |ts| - Count(ts, id)
    ensures !HasId(ts, id) ==> r == ts
  {
    if ts == [] then []
    else
      var rest := RemoveWhere(ts[1..], id);
      assert !HasId(ts, id) ==> !HasId(ts[1..], id) by {
        if HasId(ts[1..], id) {
          var i :| 0 <= i < |ts[1..]| && ts[1..][i].id == id;
          assert ts[i + 1].id == id;
        }
      }
      assert ts == [ts[0]] + ts[1..];
      if ts[0].id == id then rest else [ts[0]] + rest
  }

  /** Prepending keeps ids distinct exactly when the list had distinct ids
      and did not already hold the new task's id. */
  lemma CreateKeepsUniqueIdsIff(ts: seq<Task>, t: Task)
    ensures UniqueIds(Prepend(ts, t)) <==> UniqueIds(ts) && !HasId(ts, t.id)
  {
  }

  /** The same task prepended twice (as happens when the form's callback and
      a broadcast of the same task both arrive) appears twice, so ids are no
      longer unique. */
  lemma DoubleCreateDuplicates(ts: seq<Task>, t: Task)
    ensures Count(Prepend(Prepend(ts, t), t), t.id) == Count(ts, t.id) + 2
    ensures !UniqueIds(Prepend(Prepend(ts, t), t))
  {
  }

  /** Applying the same update twice is the same as applying it once, even
      when the new value carries a different id. */
  lemma UpdateIdempotent(ts: seq<Task>, id: string, v: Task)
    ensures ReplaceWhere(ReplaceWhere(ts, id, v), id, v) == ReplaceWhere(ts, id, v)
  {
  }

  /** An update whose value keeps the id it replaces keeps every id in place,
      so it preserves uniqueness. */
  lemma UpdateKeepsUniqueIds(ts: seq<Task>, v: Task)
    requires UniqueIds(ts)
    ensures UniqueIds(ReplaceWhere(ts, v.id, v))
  {
  }

  /** Filtering distributes over concatenation: the surviving entries keep
      their relative order. */
  lemma {:induction false} RemoveDistributes(a: seq<Task>, b: seq<Task>, id: string)
    ensures RemoveWhere(a + b, id) == RemoveWhere(a, id) + RemoveWhere(b, id)
  {
    if a == [] {
      assert a + b == b;
    } else {
      var ab := a + b;
      assert ab[1..] == a[1..] + b;
      assert ab[0] == a[0];
      RemoveDistributes(a[1..], b, id);
      var tail := RemoveWhere(a[1..], id);
      if a[0].id == id {
        assert RemoveWhere(ab, id) == RemoveWhere(ab[1..], id);
        assert RemoveWhere(a, id) == tail;
      } else {
        assert RemoveWhere(ab, id) == [a[0]] + RemoveWhere(ab[1..], id);
        assert RemoveWhere(a, id) == [a[0]] + tail;
      }
    }
  }

  /** Deleting removes every entry carrying the id, so a second delete of
      the same id changes nothing. */
  lemma RemoveIdempotent(ts: seq<Task>, id: string)
    ensures !HasId(RemoveWhere(ts, id), id)
    ensures RemoveWhere(RemoveWhere(ts, id), id) == RemoveWhere(ts, id)
  {
    var r := RemoveWhere(ts, id);
    forall i | 0 <= i < |r| ensures r[i].id != id {
      assert r[i] in r;
    }
  }

  /** Deleting never creates a duplicate id. */
  lemma {:induction false} RemoveKeepsUniqueIds(ts: seq<Task>, id: string)
    requires UniqueIds(ts)
    ensures UniqueIds(RemoveWhere(ts, id))
  {
    if ts != [] {
      assert ts == Prepend(ts[1..], ts[0]);
      CreateKeepsUniqueIdsIff(ts[1..], ts[0]);
      RemoveKeepsUniqueIds(ts[1..], id);
      var rest := RemoveWhere(ts[1..], id);
      if ts[0].id != id {
        forall k | 0 <= k < |rest| ensures rest[k].id != ts[0].id {
          assert rest[k] in rest;
          var m :| 0 <= m < |ts[1..]| && ts[1..][m] == rest[k];
        }
        CreateKeepsUniqueIdsIff(rest, ts[0]);
      }
    }
  }
}
