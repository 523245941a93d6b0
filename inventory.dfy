/**
 The inventory list of the InventoryListLocalStorage component: an ordered
 list of rows {name, qty, id}, three operations that build a new list from
 the old one (append, update by id, remove by id), and the component state
 that holds the current list and mirrors it into the browser storage slot
 "list" after every change.
 */
module InventoryList {

  /** One inventory row; every field is free text, the id is the row's identity. */
  datatype Row = Row(name: string, qty: string, id: string)

  /** What the storage slot "list" holds as far as the component can tell:
      no key at all, the empty string, the serialisation of a row list, or
      text that the parser rejects. */
  datatype Slot = Absent | EmptyText | Holds(rows: seq<Row>) | Malformed

  datatype LoadError = ParseError

  datatype Result<+T, +E> = Success(value: T) | Failure(error: E)

  /** The set of ids that occur in a list. */
  function IdsOf(rows: seq<Row>): (ids: set<string>)
  {
    set r | r in rows :: r.id
  }

  /** The list invariant: no two rows share an id. */
  predicate UniqueIds(rows: seq<Row>)
  {
    forall i, j :: 0 <= i < j < |rows| ==> rows[i].id != rows[j].id
  }

  // ----- the three list operations -------------------------------------

  /** addNewRow: the old rows followed by a new row with the given id. */
  function WithNewRow(rows: seq<Row>, item: string, qty: string, freshId: string): (r: seq<Row>)
    ensures |r| == |rows| + 1
    ensures forall i :: 0 <= i < |rows| ==> r[i] == rows[i]
    ensures r[|rows|] == Row(item, qty, freshId)
  {
    rows + [Row(item, qty, freshId)]
  }

  /** updateRow: every row whose id is oneRow.id is replaced by the row
      with oneRow's name and id and the new qty; every other row stays. */
  function WithUpdatedRow(rows: seq<Row>, oneRow: Row, qty: string): (r: seq<Row>)
    ensures |r| == |rows|
    ensures forall i :: 0 <= i < |rows| && rows[i].id != oneRow.id ==> r[i] == rows[i]
    ensures forall i :: 0 <= i < |rows| && rows[i].id == oneRow.id ==> r[i] == Row(oneRow.name, qty, oneRow.id)
    ensures oneRow.id !in IdsOf(rows) ==> r == rows
  {
    if rows == [] then []
    else
      var head := if rows[0].id == oneRow.id then Row(oneRow.name, qty, oneRow.id) else rows[0];
      [head] + WithUpdatedRow(rows[1..], oneRow, qty)
  }

  /** removeRow: the rows whose id differs from the given one, in order. */
  function WithoutRow(rows: seq<Row>, id: string): (r: seq<Row>)
    ensures forall x :: x in r <==> x in rows && x.id != id
    ensures id !in IdsOf(r)
    ensures |r| <= |rows|
    ensures id !in IdsOf(rows) ==> r == rows
  {
    if rows == [] then []
    else if rows[0].id == id then WithoutRow(rows[1..], id)
    else [rows[0]] + WithoutRow(rows[1..], id)
  }

  // ----- the storage slot ------------------------------------------------

  /** The startup read: a missing or empty slot reads as the empty list,
      serialised rows read back as themselves, and unparsable text fails
      (the source lets the parser's exception escape). */
  function Load(slot: Slot): (r: Result<seq<Row>, LoadError>)
    ensures r.Failure? <==> slot == Malformed
    ensures slot == Absent || slot == EmptyText ==> r == Success([])
    ensures slot.Holds? ==> r == Success(slot.rows)
  {
    match slot
    case Absent => Success([])
    case EmptyText => Success([])
    case Holds(rows) => Success(rows)
    case Malformed => Failure(ParseError)
  }

  /** The persist effect: the slot is overwritten with the whole list, so
      reading it back yields exactly that list. */
  function Persist(rows: seq<Row>): (s: Slot)
    ensures Load(s) == Success(rows)
  {
    Holds(rows)
  }

  // ----- lemmas about the list operations --------------------------------

  /** Unique ids, read from the front: a list has unique ids exactly when
      its head's id is not in its tail and its tail has unique ids. */
  lemma UniqueIdsCons(rows: seq<Row>)
    requires rows != []
    ensures UniqueIds(rows) <==> rows[0].id !in IdsOf(rows[1..]) && UniqueIds(rows[1..])
  {
  }

  /** The ids of an appended list are the old ones plus the new one. */
  lemma AddIds(rows: seq<Row>, item: string, qty: string, freshId: string)
    ensures IdsOf(WithNewRow(rows, item, qty, freshId)) == IdsOf(rows) + {freshId}
  {
  }

  /** A row added with a fresh id keeps the ids pairwise distinct. */
  lemma AddKeepsUniqueIds(rows: seq<Row>, item: string, qty: string, freshId: string)
    requires UniqueIds(rows)
    requires freshId !in IdsOf(rows)
    ensures UniqueIds(WithNewRow(rows, item, qty, freshId))
  {
  }

  /** Updating never changes which id sits at which position. */
  lemma UpdateKeepsIds(rows: seq<Row>, oneRow: Row, qty: string)
    ensures forall i :: 0 <= i < |rows| ==> WithUpdatedRow(rows, oneRow, qty)[i].id == rows[i].id
    ensures IdsOf(WithUpdatedRow(rows, oneRow, qty)) == IdsOf(rows)
    ensures UniqueIds(rows) ==> UniqueIds(WithUpdatedRow(rows, oneRow, qty))
  {
  }

  /** With unique ids and oneRow taken from the list, updating changes only
      that row's qty: its name and id stay, every other row stays. */
  lemma UpdateChangesOnlyQty(rows: seq<Row>, k: nat, qty: string)
    requires UniqueIds(rows)
    requires k < |rows|
    ensures WithUpdatedRow(rows, rows[k], qty) == rows[k := rows[k].(qty := qty)]
  {
  }

  /** A second update of the same id overrides the first. */
  lemma UpdateLastWins(rows: seq<Row>, oneRow: Row, q1: string, q2: string)
    ensures WithUpdatedRow(WithUpdatedRow(rows, oneRow, q1), oneRow, q2) == WithUpdatedRow(rows, oneRow, q2)
  {
  }

  /** Removing from a concatenation removes from each part. */
  lemma {:induction false} RemoveConcat(a: seq<Row>, b: seq<Row>, id: string)
    ensures WithoutRow(a + b, id) == WithoutRow(a, id) + WithoutRow(b, id)
  {
    if a == [] {
      assert a + b == b;
    } else {
      assert (a + b)[0] == a[0];
      assert (a + b)[1..] == a[1..] + b;
      RemoveConcat(a[1..], b, id);
    }
  }

  /** With unique ids, removing the id of row k removes exactly row k and
      keeps the others in order, so the list shrinks by one. */
  lemma RemovePresent(rows: seq<Row>, k: nat)
    requires UniqueIds(rows)
    requires k < |rows|
    ensures WithoutRow(rows, rows[k].id) == rows[..k] + rows[k + 1..]
    ensures |WithoutRow(rows, rows[k].id)| == |rows| - 1
  {
    var id, pre, mid, post := rows[k].id, rows[..k], [rows[k]], rows[k + 1..];
    assert WithoutRow(rows, id) == WithoutRow(pre, id) + WithoutRow(post, id) by {
      assert rows == pre + (mid + post);
      RemoveConcat(pre, mid + post, id);
      RemoveConcat(mid, post, id);
      assert WithoutRow(mid, id) == [];
    }
    assert WithoutRow(pre, id) == pre by {
      forall x | x in pre ensures x.id != id {
        var i :| 0 <= i < |pre| && pre[i] == x;
        assert rows[i] == x;
      }
    }
    assert WithoutRow(post, id) == post by {
      forall i | 0 <= i < |post| ensures post[i].id != id {
        assert post[i] == rows[k + 1 + i];
      }
    }
  }

  /** Removing keeps the ids pairwise distinct. */
  lemma {:induction false} RemoveKeepsUniqueIds(rows: seq<Row>, id: string)
    requires UniqueIds(rows)
    ensures UniqueIds(WithoutRow(rows, id))
  {
    if rows != [] {
      UniqueIdsCons(rows);
      RemoveKeepsUniqueIds(rows[1..], id);
      if rows[0].id != id {
        var r := WithoutRow(rows, id);
        assert r[1..] == WithoutRow(rows[1..], id);
        forall x | x in r[1..] ensures x.id != rows[0].id {
          assert x in rows[1..];
        }
        UniqueIdsCons(r);
      }
    }
  }

  /** Removing the row just added with a fresh id gives back the old list. */
  lemma AddThenRemove(rows: seq<Row>, item: string, qty: string, freshId: string)
    requires freshId !in IdsOf(rows)
    ensures WithoutRow(WithNewRow(rows, item, qty, freshId), freshId) == rows
  {
    RemoveConcat(rows, [Row(item, qty, freshId)], freshId);
    assert WithoutRow([Row(item, qty, freshId)], freshId) == [];
  }

  /** An example session: add two rows, update the first, remove the
      second. */
  lemma Walkthrough(id1: string, id2: string)
    requires id1 != id2
    ensures var l1 := WithNewRow([], "Widget", "4", id1);
            var l2 := WithNewRow(l1, "Bolt", "100", id2);
            var l3 := WithUpdatedRow(l2, l2[0], "5");
            var l4 := WithoutRow(l3, id2);
            && l1 == [Row("Widget", "4", id1)]
            && |l2| == 2
            && l3 == [Row("Widget", "5", id1), Row("Bolt", "100", id2)]
            && l4 == [Row("Widget", "5", id1)]
  {
  }

  // ----- the component state --------------------------------------------

  /** The component's list state together with the storage slot it is
      mirrored into. */
  class Store {
    var rows: seq<Row>
    var stored: Slot

    /** After every update cycle the slot holds exactly the current list. */
    ghost predicate Valid()
      reads this
    {
      stored == Persist(rows)
    }

    /** Builds the store from the slot's current content; the effect that
        runs after the first render writes the loaded list back. */
    constructor (loaded: seq<Row>)
      ensures Valid()
      ensures rows == loaded
    {
      rows := loaded;
      stored := Persist(loaded);
    }

    /** Startup: read the slot, or fail where the parser would throw. */
    static method Open(slot: Slot) returns (res: Result<Store, LoadError>)
      ensures res.Failure? <==> Load(slot).Failure?
      ensures res.Success? ==> fresh(res.value) && res.value.Valid() && res.value.rows == Load(slot).value
    {
      var r := Load(slot);
      match r
      case Failure(e) => res := Failure(e);
      case Success(initial) =>
        var s := new Store(initial);
        res := Success(s);
    }

    /** Reading the slot again yields the current list. */
    method Reload() returns (loaded: Result<seq<Row>, LoadError>)
      requires Valid()
      ensures loaded == Success(rows)
    {
      loaded := Load(stored);
    }

    method AddNewRow(item: string, qty: string, freshId: string)
      requires Valid()
      requires freshId !in IdsOf(rows)
      modifies this
      ensures Valid()
      ensures rows == WithNewRow(old(rows), item, qty, freshId)
      ensures old(UniqueIds(rows)) ==> UniqueIds(rows)
    {
      if UniqueIds(rows) {
        AddKeepsUniqueIds(rows, item, qty, freshId);
      }
      rows := WithNewRow(rows, item, qty, freshId);
      stored := Persist(rows);
    }

    method UpdateRow(oneRow: Row, qty: string)
      requires Valid()
      modifies this
      ensures Valid()
      ensures rows == WithUpdatedRow(old(rows), oneRow, qty)
      ensures old(UniqueIds(rows)) ==> UniqueIds(rows)
    {
      UpdateKeepsIds(rows, oneRow, qty);
      rows := WithUpdatedRow(rows, oneRow, qty);
      stored := Persist(rows);
    }

    method RemoveRow(id: string)
      requires Valid()
      modifies this
      ensures Valid()
      ensures rows == WithoutRow(old(rows), id)
      ensures old(UniqueIds(rows)) ==> UniqueIds(rows)
    {
      if UniqueIds(rows) {
        RemoveKeepsUniqueIds(rows, id);
      }
      rows := WithoutRow(rows, id);
      stored := Persist(rows);
    }
  }
}
