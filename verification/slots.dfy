/** Array.prototype.slice as the slot list uses it: a negative index counts
    back from the end, and every index is clamped into the array. */
module JsArray {

  /** Where a relative slice index lands in an array of length `len`. */
  function Clamp(len: nat, i: int): (r: nat)
    ensures r <= len
    ensures 0 <= i <= len ==> r == i
    ensures i < 0 && len + i >= 0 ==> r == len + i
    ensures i > len ==> r == len
    ensures len + i < 0 ==> r == 0
  {
    if i < 0 then (if len + i < 0 then 0 else len + i)
    else if i > len then len
    else i
  }

  /** a.slice(begin, end); a.slice(begin) is Slice(a, begin, |a|). */
  function Slice<T>(a: seq<T>, begin: int, end: int): (r: seq<T>)
    ensures |r| <= |a|
    ensures 0 <= begin <= end <= |a| ==> r == a[begin..end]
    ensures -|a| <= begin < 0 && end == |a| ==> r == a[|a| + begin..]
    ensures 0 == begin && -|a| <= end < 0 ==> r == a[..|a| + end]
    ensures 0 <= begin <= |a| <= end ==> r == a[begin..]
    ensures Clamp(|a|, begin) >= Clamp(|a|, end) ==> r == []
    ensures end >= |a| && begin >= |a| ==> r == []
  {
    var from := Clamp(|a|, begin);
    var to := Clamp(|a|, end);
    if from < to then a[from..to] else []
  }
}

/** The App component's slot list: slots are created with a given id and
    default payload, appended, and removed by id. */
module Slots {

  import opened JsArray

  /** gid rounds a random fraction of 10^8 to the nearest integer, so an id
      lies in 0 .. 10^8 inclusive. */
  const IdBound: int := 100_000_000

  type SlotId = i: int | 0 <= i <= IdBound

  datatype Slot = Slot(id: SlotId, time: int, relative: bool)

  /** newSlot, with the id gid would have drawn given as the argument. */
  function NewSlot(id: SlotId): (s: Slot)
    ensures s.id == id
    ensures s.time == 0 && s.relative
  {
    Slot(id, 0, true)
  }

  /** Some slot of `list` carries `id`. */
  predicate HasId(list: seq<Slot>, id: SlotId) {
    exists k :: 0 <= k < |list| && list[k].id == id
  }

  /** No two slots of `list` share an id. */
  predicate UniqueIds(list: seq<Slot>) {
    forall i, j :: 0 <= i < j < |list| ==> list[i].id != list[j].id
  }

  /** findIndex with an id-equality test: the position of the first slot
      with `id`, or -1 when there is none. */
  function FindIndex(list: seq<Slot>, id: SlotId): (r: int)
    ensures -1 <= r < |list|
    ensures r == -1 <==> !HasId(list, id)
    ensures r >= 0 ==> list[r].id == id
    ensures r >= 0 ==> forall k :: 0 <= k < r ==> list[k].id != id
  {
    if |list| == 0 then -1
    else if list[0].id == id then 0
    else
      var k := FindIndex(list[1..], id);
      assert forall j :: 0 < j < |list| ==> list[j] == list[1..][j - 1];
      if k == -1 then -1 else k + 1
  }

  /** Removing the element at a position inside the array. */
  function RemoveAtIndex<T>(arr: seq<T>, i: int): (r: seq<T>)
    requires 0 <= i < |arr|
    ensures |r| == |arr| - 1
    ensures forall k :: 0 <= k < i ==> r[k] == arr[k]
    ensures forall k :: i <= k < |r| ==> r[k] == arr[k + 1]
    ensures multiset(r) == multiset(arr) - multiset{arr[i]}
  {
    assert arr == arr[..i] + [arr[i]] + arr[i + 1..];
    arr[..i] + arr[i + 1..]
  }

  /** removeAtIndex as written, for every integer index: the slice before
      the index followed by the slice from one past it. A negative index counts from the end, except
      that -1 keeps all but the last element and then the whole array again,
      because index + 1 is 0. */
  function RemoveAtAnyIndex<T>(arr: seq<T>, index: int): (r: seq<T>)
    ensures 0 <= index < |arr| ==> r == RemoveAtIndex(arr, index)
    ensures -|arr| <= index < -1 ==> r == RemoveAtIndex(arr, |arr| + index)
    ensures index == -1 ==> r == (if |arr| == 0 then [] else arr[..|arr| - 1]) + arr
    ensures index >= |arr| ==> r == arr
    ensures index < -|arr| ==> r == arr
  {
    Slice(arr, 0, index) + Slice(arr, index + 1, |arr|)
  }

  /** addSlot: append a new slot. */
  function AddSlot(list: seq<Slot>, id: SlotId): (r: seq<Slot>)
    ensures |r| == |list| + 1
    ensures r[..|list|] == list
    ensures r[|list|].id == id && r[|list|].time == 0 && r[|list|].relative
  {
    list + [NewSlot(id)]
  }

  /** removeSlot as written: the index is looked up in the reducer's `list`,
      but removed from `slots`, the list the last render saw. */
  function RemoveSlotAsWritten(slots: seq<Slot>, list: seq<Slot>, id: SlotId): (r: seq<Slot>)
    ensures HasId(list, id) && FindIndex(list, id) < |slots| ==>
      r == RemoveAtIndex(slots, FindIndex(list, id))
    ensures HasId(list, id) && FindIndex(list, id) >= |slots| ==> r == slots
    ensures !HasId(list, id) ==>
      r == (if |slots| == 0 then [] else slots[..|slots| - 1]) + slots
  {
    RemoveAtAnyIndex(slots, FindIndex(list, id))
  }

  /** removeSlot when the render is up to date, so that `slots` is `list`.
      When the id is present the first slot carrying it goes and the rest
      keep their order; when it is absent the list is not left alone. */
  function RemoveSlot(list: seq<Slot>, id: SlotId): (r: seq<Slot>)
    ensures HasId(list, id) ==>
      var k := FindIndex(list, id);
      && 0 <= k < |list| && list[k].id == id
      && (forall j :: 0 <= j < k ==> list[j].id != id)
      && r == RemoveAtIndex(list, k)
    ensures !HasId(list, id) ==>
      r == (if |list| == 0 then [] else list[..|list| - 1]) + list
  {
    RemoveSlotAsWritten(list, list, id)
  }

  /** Two clicks on the same Remove button before a re-render: the second
      finds no slot 1 in the new list and brings slot 1 back twice over. */
  lemma StaleRemoveSameSlot()
    ensures var slots := [NewSlot(1), NewSlot(2)];
      var list := RemoveSlotAsWritten(slots, slots, 1);
      && list == [NewSlot(2)]
      && RemoveSlotAsWritten(slots, list, 1) == [NewSlot(1), NewSlot(1), NewSlot(2)]
  {
    var slots := [NewSlot(1), NewSlot(2)];
    assert FindIndex(slots, 1) == 0;
    assert RemoveAtIndex(slots, 0) == [NewSlot(2)];
    assert !HasId([NewSlot(2)], 1);
    assert slots[..1] == [NewSlot(1)];
  }

  /** Removing slot x and then slot z of [x, y, z] before a re-render: the
      reducer's list is already [y, z], and z's index there is applied to
      the old list, so y goes instead of z. */
  lemma StaleRemoveOtherSlot(x: Slot, y: Slot, z: Slot)
    requires x.id != y.id && y.id != z.id && x.id != z.id
    ensures RemoveSlotAsWritten([x, y, z], [y, z], z.id) == [x, z]
  {
    var slots := [x, y, z];
    assert FindIndex([y, z], z.id) == 1 by {
      assert [y, z][1..] == [z];
    }
    assert slots[..1] == [x] && slots[2..] == [z];
  }

  /** A missing id makes the as-written removeSlot repeat the first slot
      whenever there are at least two, so ids stop being unique. */
  lemma RemoveMissingDuplicates(list: seq<Slot>, id: SlotId)
    requires !HasId(list, id) && |list| >= 2
    ensures |RemoveSlot(list, id)| == 2 * |list| - 1
    ensures !UniqueIds(RemoveSlot(list, id))
  {
    var r := RemoveSlot(list, id);
    assert r[0] == list[0] && r[|list| - 1] == list[0];
  }

  /** Concretely: two slots, and an id neither carries. */
  lemma RemoveMissingExample()
    ensures RemoveSlot([NewSlot(1), NewSlot(2)], 3)
         == [NewSlot(1), NewSlot(1), NewSlot(2)]
  {
    assert !HasId([NewSlot(1), NewSlot(2)], 3);
  }

  /** removeSlot as evidently intended: on the reducer's own list, deleting
      what is there and ignoring what is not. */
  function RemoveSlotIntended(list: seq<Slot>, id: SlotId): (r: seq<Slot>)
    ensures HasId(list, id) ==> r == RemoveSlot(list, id)
    ensures !HasId(list, id) ==> r == list
  {
    var k := FindIndex(list, id);
    if k == -1 then list else RemoveAtIndex(list, k)
  }

  /** Adding a slot with a fresh id and removing that id again gives back
      the list, with both removals. */
  lemma AddThenRemove(list: seq<Slot>, id: SlotId)
    requires !HasId(list, id)
    ensures RemoveSlot(AddSlot(list, id), id) == list
    ensures RemoveSlotIntended(AddSlot(list, id), id) == list
  {
    var added := AddSlot(list, id);
    assert added[|list|].id == id;
    assert FindIndex(added, id) == |list|;
  }

  /** Appending a fresh id keeps ids unique. */
  lemma AddSlotUnique(list: seq<Slot>, id: SlotId)
    requires UniqueIds(list) && !HasId(list, id)
    ensures UniqueIds(AddSlot(list, id))
  {
    var r := AddSlot(list, id);
    forall i, j | 0 <= i < j < |r|
      ensures r[i].id != r[j].id
    {
      if j == |list| {
        assert r[i] == list[i];
      } else {
        assert r[i] == list[i] && r[j] == list[j];
      }
    }
  }

  /** The intended removal keeps ids unique, and then no slot with `id`
      is left. */
  lemma RemoveSlotIntendedUnique(list: seq<Slot>, id: SlotId)
    requires UniqueIds(list)
    ensures UniqueIds(RemoveSlotIntended(list, id))
    ensures !HasId(RemoveSlotIntended(list, id), id)
  {
    var r := RemoveSlotIntended(list, id);
    if HasId(list, id) {
      var k := FindIndex(list, id);
      // slot j of the result is slot j, or j + 1 from position k on, of the list
      assert forall j :: 0 <= j < |r| ==> r[j] == list[if j < k then j else j + 1];
      forall i, j | 0 <= i < j < |r|
        ensures r[i].id != r[j].id
      {
        assert r[i] == list[if i < k then i else i + 1];
        assert r[j] == list[if j < k then j else j + 1];
      }
      forall j | 0 <= j < |r|
        ensures r[j].id != id
      {
        if j < k {
          assert r[j] == list[j];
        } else {
          assert r[j] == list[j + 1];
        }
      }
    }
  }

  /** With unique ids the intended removal is idempotent, so a second click
      on the same Remove button changes nothing. */
  lemma RemoveSlotIntendedIdempotent(list: seq<Slot>, id: SlotId)
    requires UniqueIds(list)
    ensures RemoveSlotIntended(RemoveSlotIntended(list, id), id) == RemoveSlotIntended(list, id)
  {
    RemoveSlotIntendedUnique(list, id);
  }
}
