/**
 * The item ledger of the storage page: item records, the per-department
 * capacity table, the stored-item count, the client view and the two
 * list updates (append a new item, mark items picked up).
 */
module Ledger {
  import opened JsRuntime

  datatype Department = Documents | Photos | Cards | Other

  /** Only these two statuses exist; no transition leads back to `Stored`. */
  datatype Status = Stored | PickedUp

  /** One deposited item. Amounts are whole numbers here (the page reads them with `Number(...)`). */
  datatype Item = Item(
    id: string,
    qrCode: string,
    itemName: string,
    firstName: string,
    lastName: string,
    phone: string,
    email: string,
    department: Department,
    depositAmount: int,
    pickupAmount: int,
    depositDate: string,
    pickupDate: string,
    status: Status,
    createdBy: string)

  /** The fields of the "new item" form (the `newItem` state). */
  datatype ItemForm = ItemForm(
    itemName: string,
    firstName: string,
    lastName: string,
    phone: string,
    email: string,
    department: Department,
    depositAmount: int,
    pickupAmount: int,
    depositDate: string,
    pickupDate: string)

  /** The form as it starts and as it is reset after a successful add. */
  const EmptyForm := ItemForm("", "", "", "", "", Documents, 0, 0, "", "")

  /** A department's ceiling; `Unlimited` stands for the `Infinity` of the limits table. */
  datatype Limit = AtMost(max: nat) | Unlimited

  /** The capacity table: 100 for documents, photos and cards; no ceiling for other. */
  function DepartmentLimit(d: Department): (l: Limit)
    ensures l.Unlimited? <==> d == Other
    ensures l.AtMost? ==> l.max == 100
  {
    match d
    case Documents => AtMost(100)
    case Photos => AtMost(100)
    case Cards => AtMost(100)
    case Other => Unlimited
  }

  /** A department holding `count` stored items respects `limit`. */
  predicate Fits(count: nat, limit: Limit)
  {
    match limit
    case AtMost(max) => count <= max
    case Unlimited => true
  }

  /** The page's `count >= limit` test, negated: a department with this count may take one more item. */
  function HasRoom(count: nat, limit: Limit): (r: bool)
    ensures r <==> Fits(count + 1, limit)
  {
    match limit
    case AtMost(max) => count < max
    case Unlimited => true
  }

  /** The filter predicate of `getDepartmentCount`. */
  function StoredIn(d: Department): Item -> bool
  {
    (x: Item) => x.department == d && x.status == Stored
  }

  /** `getDepartmentCount(d)`: the length of the list of stored items of department `d`. */
  function StoredCount(items: seq<Item>, d: Department): nat
  {
    |Filter(items, StoredIn(d))|
  }

  /** The filter predicate of the client view. */
  function HasPhone(phone: string): Item -> bool
  {
    (x: Item) => x.phone == phone
  }

  /** `items.filter(item => item.phone === phone)`: what a client logged in with `phone` sees. */
  function ForClient(items: seq<Item>, phone: string): seq<Item>
  {
    Filter(items, HasPhone(phone))
  }

  /** Capacity invariant: no capped department holds more stored items than its ceiling. */
  predicate WithinLimits(items: seq<Item>)
  {
    forall d :: Fits(StoredCount(items, d), DepartmentLimit(d))
  }

  /** The form fields an item carries over from the form it was created from. */
  function FormOf(x: Item): ItemForm
  {
    ItemForm(x.itemName, x.firstName, x.lastName, x.phone, x.email, x.department,
             x.depositAmount, x.pickupAmount, x.depositDate, x.pickupDate)
  }

  /**
   * The record `handleAddItem` builds: id and code as given, the form's
   * fields, status stored, and the current user name as creator, or
   * `admin` when the user name is empty.
   */
  function NewItem(form: ItemForm, id: string, qrCode: string, username: string): (x: Item)
    ensures FormOf(x) == form
    ensures x.id == id && x.qrCode == qrCode && x.status == Stored
    ensures x.createdBy == (if username == "" then "admin" else username)
  {
    Item(id, qrCode, form.itemName, form.firstName, form.lastName, form.phone, form.email,
         form.department, form.depositAmount, form.pickupAmount, form.depositDate,
         form.pickupDate, Stored, if username == "" then "admin" else username)
  }

  /** `items.map(...)` of `handlePickupItem`: every item with the given id becomes picked up. */
  function PickUp(items: seq<Item>, id: string): (r: seq<Item>)
    ensures |r| == |items|
    ensures forall i :: 0 <= i < |items| ==> r[i].(status := items[i].status) == items[i]
    ensures forall i :: 0 <= i < |items| ==> r[i].status == (if items[i].id == id then PickedUp else items[i].status)
  {
    seq(|items|, i requires 0 <= i < |items| =>
      if items[i].id == id then items[i].(status := PickedUp) else items[i])
  }

  // ---------------------------------------------------------------------------
  // Department counts

  /** The positions of `items` that hold a stored item of department `d`. */
  function StoredPositions(items: seq<Item>, d: Department): set<int>
  {
    set i | 0 <= i < |items| && items[i].department == d && items[i].status == Stored
  }

  /** The count is the number of positions holding a stored item of that department. */
  lemma StoredCountIsNumberOfStoredItems(items: seq<Item>, d: Department)
    ensures StoredCount(items, d) == |StoredPositions(items, d)|
  {
    var matching := MatchPositions(items, StoredIn(d));
    var stored := StoredPositions(items, d);
    FilterLengthIsMatchCount(items, StoredIn(d));
    assert |Filter(items, StoredIn(d))| == |matching|;
    assert matching == stored;
  }

  /** Appending an item raises its department's count by one if it is stored, and changes nothing else. */
  lemma StoredCountAppend(items: seq<Item>, x: Item, d: Department)
    ensures StoredCount(items + [x], d)
         == StoredCount(items, d) + (if x.department == d && x.status == Stored then 1 else 0)
  {
    FilterConcat(items, [x], StoredIn(d));
  }

  /** Picked-up items are never counted, whichever department they belong to. */
  lemma PickedUpNotCounted(items: seq<Item>, x: Item, d: Department)
    requires x.status == PickedUp
    ensures StoredCount(items + [x], d) == StoredCount(items, d)
  {
    StoredCountAppend(items, x, d);
  }

  // ---------------------------------------------------------------------------
  // Capacity

  /** A capped department whose list holds at least its ceiling of stored items has no room. */
  lemma FullDepartmentHasNoRoom(items: seq<Item>, d: Department)
    requires DepartmentLimit(d).AtMost?
    requires |StoredPositions(items, d)| >= DepartmentLimit(d).max
    ensures !HasRoom(StoredCount(items, d), DepartmentLimit(d))
  {
    StoredCountIsNumberOfStoredItems(items, d);
  }

  /** The `other` department is never full. */
  lemma OtherAlwaysHasRoom(items: seq<Item>)
    ensures HasRoom(StoredCount(items, Other), DepartmentLimit(Other))
  {
  }

  /** Appending an item to a department with room keeps the capacity invariant. */
  lemma AppendKeepsLimits(items: seq<Item>, x: Item)
    requires WithinLimits(items)
    requires HasRoom(StoredCount(items, x.department), DepartmentLimit(x.department))
    ensures WithinLimits(items + [x])
  {
    forall d
      ensures Fits(StoredCount(items + [x], d), DepartmentLimit(d))
    {
      StoredCountAppend(items, x, d);
    }
  }

  // ---------------------------------------------------------------------------
  // Pickup

  /** Picking up the items of a prefix is the prefix of picking up the whole list. */
  lemma PickUpPrefix(items: seq<Item>, id: string, n: nat)
    requires n <= |items|
    ensures PickUp(items, id)[..n] == PickUp(items[..n], id)
  {
  }

  /** Pickup never raises any department's stored count. */
  lemma {:induction false} PickUpNeverRaisesCount(items: seq<Item>, id: string, d: Department)
    ensures StoredCount(PickUp(items, id), d) <= StoredCount(items, d)
    decreases |items|
  {
    if items != [] {
      var n := |items| - 1;
      var after := PickUp(items, id);
      PickUpNeverRaisesCount(items[..n], id, d);
      PickUpPrefix(items, id, n);
      assert items == items[..n] + [items[n]];
      assert after == after[..n] + [after[n]];
      StoredCountAppend(items[..n], items[n], d);
      StoredCountAppend(after[..n], after[n], d);
    }
  }

  /** Pickup keeps the capacity invariant. */
  lemma PickUpKeepsLimits(items: seq<Item>, id: string)
    requires WithinLimits(items)
    ensures WithinLimits(PickUp(items, id))
  {
    forall d
      ensures Fits(StoredCount(PickUp(items, id), d), DepartmentLimit(d))
    {
      PickUpNeverRaisesCount(items, id, d);
    }
  }

  /** When no item carries the id, pickup leaves the list as it was. */
  lemma PickUpUnknownIdIsNoOp(items: seq<Item>, id: string)
    requires forall i :: 0 <= i < |items| ==> items[i].id != id
    ensures PickUp(items, id) == items
  {
  }

  /** A second pickup of the same id changes nothing. */
  lemma PickUpIdempotent(items: seq<Item>, id: string)
    ensures PickUp(PickUp(items, id), id) == PickUp(items, id)
  {
  }

  /** Pickup does not change any phone, so a client still sees the same items, now picked up. */
  lemma {:induction false} PickUpCommutesWithClientView(items: seq<Item>, id: string, phone: string)
    ensures ForClient(PickUp(items, id), phone) == PickUp(ForClient(items, phone), id)
    decreases |items|
  {
    if items != [] {
      var n := |items| - 1;
      var init, last := items[..n], items[n];
      var after := PickUp(items, id);
      assert items == init + [last];
      assert after == PickUp(init, id) + PickUp([last], id) by {
        PickUpConcat(init, [last], id);
      }
      calc {
        ForClient(after, phone);
        { ClientViewOrder(PickUp(init, id), PickUp([last], id), phone); }
        ForClient(PickUp(init, id), phone) + ForClient(PickUp([last], id), phone);
        { PickUpCommutesWithClientView(init, id, phone); }
        PickUp(ForClient(init, phone), id) + ForClient(PickUp([last], id), phone);
        { PickUpKeepsPhone(last, id, phone); }
        PickUp(ForClient(init, phone), id) + PickUp(ForClient([last], phone), id);
        { PickUpConcat(ForClient(init, phone), ForClient([last], phone), id); }
        PickUp(ForClient(init, phone) + ForClient([last], phone), id);
        { ClientViewOrder(init, [last], phone); }
        PickUp(ForClient(items, phone), id);
      }
    }
  }

  /** For a single item, the client view and pickup commute: pickup keeps the phone. */
  lemma PickUpKeepsPhone(x: Item, id: string, phone: string)
    ensures ForClient(PickUp([x], id), phone) == PickUp(ForClient([x], phone), id)
  {
    var y := PickUp([x], id)[0];
    assert PickUp([x], id) == [y];
    assert y.phone == x.phone;
    assert ForClient([x], phone) == (if x.phone == phone then [x] else []);
    assert ForClient([y], phone) == (if y.phone == phone then [y] else []);
  }

  /** Pickup works item by item, so it distributes over concatenation. */
  lemma PickUpConcat(a: seq<Item>, b: seq<Item>, id: string)
    ensures PickUp(a + b, id) == PickUp(a, id) + PickUp(b, id)
  {
  }

  // ---------------------------------------------------------------------------
  // Client view

  /** The client view holds exactly the items with the client's phone. */
  lemma ClientViewMembers(items: seq<Item>, phone: string, x: Item)
    ensures x in ForClient(items, phone) <==> x in items && x.phone == phone
  {
  }

  /** The client view keeps insertion order: it distributes over concatenation. */
  lemma ClientViewOrder(a: seq<Item>, b: seq<Item>, phone: string)
    ensures ForClient(a + b, phone) == ForClient(a, phone) + ForClient(b, phone)
  {
    FilterConcat(a, b, HasPhone(phone));
  }

  /** Adding an item extends a client's view by that item when the phone matches, and leaves it alone otherwise. */
  lemma ClientViewAppend(items: seq<Item>, x: Item, phone: string)
    ensures ForClient(items + [x], phone)
         == ForClient(items, phone) + (if x.phone == phone then [x] else [])
  {
    FilterConcat(items, [x], HasPhone(phone));
  }
}
