/**
 * The global `state` object and the handlers that change it in place:
 * loading from the URL fragment, reset, adding requesters, adding or
 * updating items, changing a quantity and editing the remark.
 */
module OrderStore {
  import opened Wrappers
  import opened JsString
  import opened OrderData

  /** How `addStaff` ends: appended, refused with the "already exists" alert, or silently ignored. */
  datatype StaffOutcome = StaffAdded | StaffDuplicate | StaffIgnored

  /** How `addOrUpdateItem` ends: refused for a missing name, an item updated, or one appended. */
  datatype ItemOutcome = MissingName | ItemUpdated(index: nat) | ItemAdded

  class OrderState {
    var staffList: seq<string>
    var itemList: seq<Item>
    var orders: map<string, int>
    var orderRemark: string
    var assignments: Option<map<string, string>>

    /** The state as a value. */
    function Snapshot(): StateRecord
      reads this
    {
      StateRecord(staffList, itemList, orders, orderRemark, assignments)
    }

    /** `let state = JSON.parse(JSON.stringify(defaultData))`: a fresh copy of the defaults. */
    constructor ()
      ensures Snapshot() == DefaultData
    {
      staffList := DefaultData.staffList;
      itemList := DefaultData.itemList;
      orders := DefaultData.orders;
      orderRemark := DefaultData.orderRemark;
      assignments := DefaultData.assignments;
    }

    /** `resetData`: when the user confirms, the state becomes a fresh copy of the defaults. */
    method ResetData(confirmed: bool)
      modifies this
      ensures Snapshot() == if confirmed then DefaultData else old(Snapshot())
    {
      if confirmed {
        staffList := DefaultData.staffList;
        itemList := DefaultData.itemList;
        orders := DefaultData.orders;
        orderRemark := DefaultData.orderRemark;
        assignments := DefaultData.assignments;
      }
    }

    /**
     * `loadStateFromURL`: merge a decoded record over the defaults and
     * migrate legacy `assignments`; keep the state when there is no fragment
     * or it does not decode; then backfill the quantities.
     */
    method LoadStateFromURL(fragment: Fragment)
      modifies this
      ensures Snapshot() == Loaded(old(Snapshot()), fragment)
      ensures CoversItems(itemList, orders)
    {
      match fragment {
        case Decoded(rec) =>
          var merged := MergeOverDefaults(rec);
          staffList, itemList, orders, orderRemark, assignments :=
            merged.staffList, merged.itemList, merged.orders, merged.orderRemark, merged.assignments;
          if rec.assignments.Some? {
            MigrateRequesters(rec.assignments.value);
          }
        case _ =>
      }
      BackfillOrders();
      LoadedCoversItems(old(Snapshot()), fragment);
    }

    /** The migration loop: each item with a falsy requester takes a truthy `assignments[name]`. */
    method MigrateRequesters(table: map<string, string>)
      modifies this
      ensures Snapshot() == old(Snapshot()).(itemList := MigrateItems(old(itemList), table))
    {
      var i := 0;
      while i < |itemList|
        invariant 0 <= i <= |itemList| == |old(itemList)|
        invariant forall j :: 0 <= j < i ==> itemList[j] == MigrateItem(old(itemList)[j], table)
        invariant forall j :: i <= j < |itemList| ==> itemList[j] == old(itemList)[j]
        invariant Snapshot() == old(Snapshot()).(itemList := itemList)
      {
        var item := itemList[i];
        if item.requester == "" && item.name in table && table[item.name] != "" {
          itemList := itemList[i := item.(requester := table[item.name])];
        }
        i := i + 1;
      }
    }

    /** The backfill loop: each item name without an `orders` entry gets 0. */
    method BackfillOrders()
      modifies this
      ensures Snapshot() == old(Snapshot()).(orders := Backfill(old(itemList), old(orders)))
    {
      var i := 0;
      while i < |itemList|
        invariant 0 <= i <= |itemList|
        invariant Backfill(itemList[i..], orders) == Backfill(itemList, old(orders))
        invariant Snapshot() == old(Snapshot()).(orders := orders)
      {
        var name := itemList[i].name;
        assert itemList[i..][1..] == itemList[i + 1..];
        if name !in orders {
          orders := orders[name := 0];
        }
        i := i + 1;
      }
    }

    /**
     * `addStaff`: the trimmed name is appended when it is non-empty and not
     * yet listed; a listed name is refused as a duplicate; an empty name is
     * ignored. A duplicate-free list stays duplicate-free.
     */
    method AddStaff(input: string) returns (outcome: StaffOutcome)
      modifies this
      ensures var name := Trim(input);
        && (name != "" && name !in old(staffList) ==>
              outcome == StaffAdded && staffList == old(staffList) + [name])
        && (name in old(staffList) ==> outcome == StaffDuplicate && staffList == old(staffList))
        && (name == "" && name !in old(staffList) ==> outcome == StaffIgnored && staffList == old(staffList))
      ensures Snapshot() == old(Snapshot()).(staffList := staffList)
      ensures old(Distinct(staffList)) ==> Distinct(staffList)
    {
      var name := Trim(input);
      if name != "" && name !in staffList {
        staffList := staffList + [name];
        outcome := StaffAdded;
      } else if name in staffList {
        outcome := StaffDuplicate;
      } else {
        outcome := StaffIgnored;
      }
    }

    /**
     * `addOrUpdateItem`, keyed by the trimmed name: an empty name changes
     * nothing; the first item of that name gets the trimmed description and
     * the selected requester ("" when none is selected); a new name is
     * appended with quantity 0. Unique names stay unique, and every item
     * keeps a non-negative quantity entry when it had one.
     */
    method AddOrUpdateItem(nameInput: string, descInput: string, requester: string)
      returns (outcome: ItemOutcome)
      modifies this
      ensures var name := Trim(nameInput); var desc := Trim(descInput);
        var idx := FirstIndex(old(itemList), name);
        && (name == "" ==>
              outcome == MissingName && itemList == old(itemList) && orders == old(orders))
        && (name != "" && idx >= 0 ==>
              && outcome == ItemUpdated(idx)
              && itemList == old(itemList)[idx := Item(name, desc, requester)]
              && orders == old(orders))
        && (name != "" && idx == -1 ==>
              && outcome == ItemAdded
              && itemList == old(itemList) + [Item(name, desc, requester)]
              && orders == old(orders)[name := 0])
      ensures Snapshot() == old(Snapshot()).(itemList := itemList, orders := orders)
      ensures old(UniqueNames(itemList)) ==> UniqueNames(itemList)
      ensures old(CoversItems(itemList, orders)) ==> CoversItems(itemList, orders)
      ensures old(NonNegative(orders)) ==> NonNegative(orders)
    {
      var name := Trim(nameInput);
      var desc := Trim(descInput);
      if name == "" {
        return MissingName;
      }
      var idx := FirstIndex(itemList, name);
      if idx > -1 {
        ghost var before := itemList;
        itemList := itemList[idx := itemList[idx].(desc := desc, requester := requester)];
        assert Names(itemList) == Names(before);
        outcome := ItemUpdated(idx);
      } else {
        ghost var before := itemList;
        itemList := itemList + [Item(name, desc, requester)];
        assert Names(itemList) == Names(before) + [name];
        assert forall j :: 0 <= j < |before| ==> Names(before)[j] != name;
        orders := orders[name := 0];
        outcome := ItemAdded;
      }
    }

    /**
     * The quantity input's `onchange`: `orders[name]` becomes the value
     * clamped below at 0; no other entry changes.
     */
    method ChangeQuantity(name: string, value: int)
      modifies this
      ensures orders == old(orders)[name := if value < 0 then 0 else value]
      ensures Snapshot() == old(Snapshot()).(orders := orders)
      ensures orders[name] >= 0 && (value >= 0 ==> orders[name] == value)
      ensures old(NonNegative(orders)) ==> NonNegative(orders)
      ensures old(CoversItems(itemList, orders)) ==> CoversItems(itemList, orders)
    {
      orders := orders[name := if value < 0 then 0 else value];
    }

    /** `updateRemark`: the remark becomes the text area's value; nothing else changes. */
    method UpdateRemark(text: string)
      modifies this
      ensures Snapshot() == old(Snapshot()).(orderRemark := text)
    {
      orderRemark := text;
    }
  }

  /**
   * What a caller can conclude from the contracts alone: a page opened with
   * an undecodable fragment starts from the defaults, a requester added twice
   * is listed once, a new item starts at quantity 0 and a negative quantity
   * is stored as 0.
   */
  method Scenario() {
    var state := new OrderState();
    state.LoadStateFromURL(Garbled);
    assert state.Snapshot() == DefaultData;

    TrimFixed("Alice");
    var first := state.AddStaff("Alice");
    var second := state.AddStaff("Alice");
    assert first == StaffAdded && second == StaffDuplicate;
    assert state.staffList == ["Alice"];

    TrimFixed("Stapler");
    TrimFixed("");
    var added := state.AddOrUpdateItem("Stapler", "", "");
    assert added == ItemAdded && state.orders["Stapler"] == 0;
    state.ChangeQuantity("Stapler", -5);
    assert state.orders["Stapler"] == 0;
  }

  /**
   * A link from an older version assigns "Pens" to Alice through
   * `assignments`. Clearing the requester and reloading the saved link
   * brings Alice back, because the leftover table is saved and re-applied.
   */
  method LegacyScenario() {
    var state := new OrderState();
    var table := map["Pens" := "Alice"];
    state.LoadStateFromURL(Decoded(DecodedRecord(None, Some([Item("Pens", "", "")]), None, None, Some(table))));
    assert state.itemList == [Item("Pens", "", "Alice")];

    TrimFixed("Pens");
    TrimFixed("");
    var updated := state.AddOrUpdateItem("Pens", "", "");
    assert updated == ItemUpdated(0) && state.itemList == [Item("Pens", "", "")];

    state.LoadStateFromURL(Decoded(Saved(state.Snapshot())));
    assert state.itemList == [Item("Pens", "", "Alice")];
  }
}
