/**
 * The `Index` page component: its state variables become fields and each
 * event handler a method that updates them as one atomic step.
 */
module IndexPage {
  import opened Wrappers
  import opened JsRuntime
  import opened Ledger
  import opened Roles

  /** What `handleAddItem` reports: the new item, or the full department and its ceiling. */
  datatype AddOutcome = Added(item: Item) | DepartmentFull(department: Department, limit: Limit)

  class Index {
    var currentRole: Option<Role>
    var username: string
    var password: string
    var items: seq<Item>
    var showItemForm: bool
    var newItem: ItemForm

    /** The page starts logged out, with no items, an empty hidden form. */
    constructor ()
      ensures currentRole == None && username == "" && password == ""
      ensures items == [] && !showItemForm && newItem == EmptyForm
      ensures WithinLimits(items)
    {
      currentRole := None;
      username := "";
      password := "";
      items := [];
      showItemForm := false;
      newItem := EmptyForm;
    }

    /** The user name / phone input. */
    method EnterUsername(s: string)
      modifies this`username
      ensures username == s
    {
      username := s;
    }

    /** The password input. */
    method EnterPassword(s: string)
      modifies this`password
      ensures password == s
    {
      password := s;
    }

    /** The inputs of the new-item form. */
    method EditForm(form: ItemForm)
      modifies this`newItem
      ensures newItem == form
    {
      newItem := form;
    }

    /** The buttons that open and cancel the new-item form. */
    method SetShowItemForm(show: bool)
      modifies this`showItemForm
      ensures showItemForm == show
    {
      showItemForm := show;
    }

    /**
     * `handleLogin(role)`: sets the role when the credentials fit it and
     * otherwise leaves the role as it was; a null role does nothing.
     */
    method HandleLogin(role: Option<Role>) returns (accepted: bool)
      modifies this`currentRole
      ensures accepted <==> role.Some? && Accepts(role.value, username, password)
      ensures currentRole == if accepted then role else old(currentRole)
    {
      accepted := false;
      if role == Some(Client) {
        if Trim(username) == "" || Trim(password) != "" {
          return;
        }
        currentRole := Some(Client);
        accepted := true;
      } else if role == Some(Cashier) {
        if password == "25" {
          currentRole := Some(Cashier);
          accepted := true;
        }
      } else if role == Some(Admin) {
        if password == "2025" {
          currentRole := Some(Admin);
          accepted := true;
        }
      } else if role == Some(Creator) {
        if password == "202505" {
          currentRole := Some(Creator);
          accepted := true;
        }
      } else if role == Some(Nikitovsky) {
        if password == "20252025" {
          currentRole := Some(Nikitovsky);
          accepted := true;
        }
      }
    }

    /** `handleLogout`: back to the logged-out state with cleared credentials. */
    method HandleLogout()
      modifies this`currentRole, this`username, this`password
      ensures currentRole == None && username == "" && password == ""
    {
      currentRole := None;
      username := "";
      password := "";
    }

    /** `getDepartmentCount(d)`: how many items of department `d` are still stored. */
    function GetDepartmentCount(d: Department): (n: nat)
      reads this
      ensures n == |StoredPositions(items, d)|
    {
      StoredCountIsNumberOfStoredItems(items, d);
      StoredCount(items, d)
    }

    /** `clientItems`: the items whose phone is the logged-in user name, in insertion order. */
    function ClientItems(): (r: seq<Item>)
      reads this
      ensures forall x :: x in r <==> x in items && x.phone == username
    {
      ForClient(items, username)
    }

    /**
     * `handleAddItem(id, qrCode)`: rejects when the form's department is at its
     * ceiling; otherwise appends the item built from the form, resets the form
     * and hides it. The id and QR code are the values the page draws from the
     * clock and the random generator.
     */
    method HandleAddItem(id: string, qrCode: string) returns (outcome: AddOutcome)
      modifies this`items, this`newItem, this`showItemForm
      ensures var dept := old(newItem.department);
        !HasRoom(old(GetDepartmentCount(dept)), DepartmentLimit(dept)) ==>
          outcome == DepartmentFull(dept, DepartmentLimit(dept)) &&
          items == old(items) && newItem == old(newItem) && showItemForm == old(showItemForm)
      ensures var dept := old(newItem.department);
        HasRoom(old(GetDepartmentCount(dept)), DepartmentLimit(dept)) ==>
          outcome == Added(NewItem(old(newItem), id, qrCode, username)) &&
          items == old(items) + [outcome.item] && newItem == EmptyForm && !showItemForm &&
          GetDepartmentCount(dept) == old(GetDepartmentCount(dept)) + 1 &&
          forall d :: d != dept ==> GetDepartmentCount(d) == old(GetDepartmentCount(d))
      ensures old(WithinLimits(items)) ==> WithinLimits(items)
    {
      var dept := newItem.department;
      var count := GetDepartmentCount(dept);
      var limit := DepartmentLimit(dept);
      if !HasRoom(count, limit) {
        return DepartmentFull(dept, limit);
      }
      var item := NewItem(newItem, id, qrCode, username);
      ghost var before := items;
      items := items + [item];
      forall d
        ensures StoredCount(items, d) == StoredCount(before, d) + (if d == dept then 1 else 0)
      {
        StoredCountAppend(before, item, d);
      }
      if WithinLimits(before) {
        AppendKeepsLimits(before, item);
      }
      newItem := EmptyForm;
      showItemForm := false;
      outcome := Added(item);
    }

    /**
     * `handlePickupItem(itemId)`: every item with that id becomes picked up;
     * no department's count rises.
     */
    method HandlePickupItem(itemId: string)
      modifies this`items
      ensures items == PickUp(old(items), itemId)
      ensures forall d :: GetDepartmentCount(d) <= old(GetDepartmentCount(d))
      ensures old(WithinLimits(items)) ==> WithinLimits(items)
    {
      ghost var before := items;
      items := PickUp(items, itemId);
      forall d
        ensures StoredCount(items, d) <= StoredCount(before, d)
      {
        PickUpNeverRaisesCount(before, itemId, d);
      }
      if WithinLimits(before) {
        PickUpKeepsLimits(before, itemId);
      }
    }
  }
}
