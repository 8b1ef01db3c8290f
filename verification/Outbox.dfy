/** The outward queue: one table whose rows hold an idempotency key while they are live
    (kompany/src/kompany/channels/outbox.py). */
module Outbox {
  import opened Wrappers
  import opened OutwardPolicy

  datatype Status = Draft | Approved | Discarded | Queued | Parked | Sent | Failed

  /** Not resolved yet: the row still holds its key. */
  predicate Live(s: Status) {
    s in {Draft, Queued, Parked}
  }

  /** Waiting for the outward lane. */
  predicate Waiting(s: Status) {
    s in {Draft, Queued}
  }

  datatype Row = Row(id: string, key: string, status: Status, createdAt: int, action: Action)

  /** Rows in row-id order. */
  type Table = seq<Row>

  predicate Holds(r: Row, key: string) {
    key != "" && r.key == key && Live(r.status)
  }

  predicate Clash(a: Row, b: Row) {
    a.id == b.id || (Holds(a, b.key) && Live(b.status))
  }

  /** The primary key and the partial unique index over live rows. */
  ghost predicate Indexed(t: Table) {
    forall i, j :: 0 <= i < j < |t| ==> !Clash(t[i], t[j])
  }

  // ----- Statements the database runs -----

  function Position(t: Table, id: string): (i: nat)
    ensures i <= |t|
    ensures i < |t| ==> t[i].id == id
    ensures forall j :: 0 <= j < i ==> t[j].id != id
  {
    if t == [] || t[0].id == id then 0
    else
      var rest := Position(t[1..], id);
      assert forall j :: 0 < j < rest + 1 ==> t[j] == t[1..][j - 1];
      rest + 1
  }

  predicate Present(t: Table, id: string) {
    Position(t, id) < |t|
  }

  function Get(t: Table, id: string): Row
    requires Present(t, id)
  {
    t[Position(t, id)]
  }

  /** The oldest row that satisfies `p`; of equally old rows, the first. */
  function Oldest(t: Table, p: Row -> bool): (r: Option<Row>)
    ensures r.None? <==> forall x :: x in t ==> !p(x)
    ensures r.Some? ==> r.value in t && p(r.value) && forall x :: x in t && p(x) ==> r.value.createdAt <= x.createdAt
  {
    if t == [] then None
    else
      var rest := Oldest(t[1..], p);
      if p(t[0]) && (rest.None? || t[0].createdAt <= rest.value.createdAt) then Some(t[0]) else rest
  }

  function HoldsKey(key: string): Row -> bool {
    (r: Row) => Holds(r, key)
  }

  function IsWaiting(): Row -> bool {
    (r: Row) => Waiting(r.status)
  }

  function FindLive(t: Table, key: string): Option<Row> {
    Oldest(t, HoldsKey(key))
  }

  /** INSERT: refused when it would break an index. */
  function Insert(t: Table, row: Row): Option<Table> {
    if exists r | r in t :: Clash(r, row) then None else Some(t + [row])
  }

  /** UPDATE of one status: refused when the row would become live beside another holder. */
  function Update(t: Table, id: string, status: Status): Option<Table> {
    if !Present(t, id) then Some(t)
    else
      var row := Get(t, id).(status := status);
      if exists r | r in t :: r.id != id && Clash(r, row) then None
      else Some(t[Position(t, id) := row])
  }

  lemma InsertKeepsIndexed(t: Table, row: Row)
    requires Indexed(t) && Insert(t, row).Some?
    ensures Indexed(Insert(t, row).value)
  {
    var u := Insert(t, row).value;
    forall i, j | 0 <= i < j < |u| ensures !Clash(u[i], u[j]) {
      assert u[i] == t[i] && t[i] in t;
    }
  }

  lemma UpdateKeepsIndexed(t: Table, id: string, status: Status)
    requires Indexed(t) && Update(t, id, status).Some?
    ensures Indexed(Update(t, id, status).value)
  {
    var u := Update(t, id, status).value;
    var k := Position(t, id);
    forall i, j | 0 <= i < j < |u| ensures !Clash(u[i], u[j]) {
      assert !Clash(t[i], t[j]);
      assert t[i] in t && t[j] in t;
    }
  }

  lemma OneRowPerId(t: Table, r: Row)
    requires Indexed(t) && r in t
    ensures Present(t, r.id) && Get(t, r.id) == r
  {
    var j :| 0 <= j < |t| && t[j] == r;
    assert Position(t, r.id) < j ==> Clash(t[Position(t, r.id)], t[j]);
  }

  lemma LiveHolderIsAlone(t: Table, a: Row, b: Row)
    requires Indexed(t) && a in t && b in t && a != b
    ensures !Clash(a, b)
  {
    var i :| 0 <= i < |t| && t[i] == a;
    var j :| 0 <= j < |t| && t[j] == b;
    assert !Clash(t[i], t[j]) || !Clash(t[j], t[i]);
  }

  /** A status change is refused exactly when a resolved row would be revived while another
      row holds its key. A live row, so also a parked one, can always be re-queued. */
  lemma UpdateRefusedIff(t: Table, id: string, status: Status)
    requires Indexed(t)
    ensures Update(t, id, status).None?
       <==> && Present(t, id) && !Live(Get(t, id).status) && Live(status)
            && FindLive(t, Get(t, id).key).Some?
  {
    if Present(t, id) {
      var old' := Get(t, id);
      var row := old'.(status := status);
      if FindLive(t, old'.key).Some? {
        var h := FindLive(t, old'.key).value;
        assert HoldsKey(old'.key)(h);
        assert !Live(old'.status) ==> h != old';
        OneRowPerId(t, h);
        assert h.id != id && Live(status) ==> Clash(h, row);
      }
      if r :| r in t && r.id != id && Clash(r, row) {
        assert HoldsKey(old'.key)(r);
        LiveHolderIsAlone(t, r, old');
      }
    }
  }

  function KeyOf(given: string, digest: string): (key: string)
    ensures key != ""
  {
    if given != "" then given else "auto:" + digest
  }

  /** The store, used by one caller at a time. */
  class OutboxStore {
    var rows: Table

    ghost predicate Valid()
      reads this
    {
      Indexed(rows)
    }

    constructor ()
      ensures Valid() && rows == []
    {
      rows := [];
    }

    method Add(row: Row) returns (r: Option<Row>)
      requires Valid()
      modifies this
      ensures Valid()
      ensures r.Some? <==> forall x :: x in old(rows) ==> !Clash(x, row)
      ensures r.Some? ==> r.value == row && rows == old(rows) + [row]
      ensures r.None? ==> rows == old(rows)
    {
      match Insert(rows, row) {
        case None => return None;
        case Some(t) =>
          InsertKeepsIndexed(rows, row);
          rows := t;
          assert row in rows;
          OneRowPerId(rows, row);
          return Some(Get(rows, row.id));
      }
    }

    method SetStatus(id: string, status: Status) returns (ok: bool)
      requires Valid()
      modifies this
      ensures Valid()
      ensures ok == Update(old(rows), id, status).Some?
      ensures rows == if ok then Update(old(rows), id, status).value else old(rows)
    {
      match Update(rows, id, status) {
        case None => return false;
        case Some(t) =>
          UpdateKeepsIndexed(rows, id, status);
          rows := t;
          return true;
      }
    }

    /** While an action with the same key is live this returns that row and queues nothing;
        otherwise it queues one row. It fails only on a row id that is already in use. */
    method EnqueueOutward(given: string, digest: string, action: Action, id: string, now: int) returns (r: Option<Row>)
      requires Valid()
      modifies this
      ensures Valid()
      ensures var key := if given != "" then given else "auto:" + digest;
              if exists x :: x in old(rows) && Holds(x, key) then
                rows == old(rows) && r.Some? && r.value in rows && Holds(r.value, key)
              else if Present(old(rows), id) then
                rows == old(rows) && r.None?
              else
                rows == old(rows) + [Row(id, key, Queued, now, action)] && r == Some(Row(id, key, Queued, now, action))
    {
      var key := KeyOf(given, digest);
      var existing := FindLive(rows, key);
      if existing.Some? {
        return existing;
      }
      assert forall x :: x in rows ==> !HoldsKey(key)(x);
      ghost var before := rows;
      if Present(rows, id) {
        assert Get(rows, id) in rows;
      }
      var row := Add(Row(id, key, Queued, now, action));
      if row.Some? {
        assert forall x :: x in before ==> x.id != id;
        return row;
      }
      ghost var x :| x in before && Clash(x, Row(id, key, Queued, now, action));
      OneRowPerId(before, x);
      var winner := FindLive(rows, key);
      return winner;
    }
  }
}
