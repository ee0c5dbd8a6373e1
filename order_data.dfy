/**
 * The order tool's state as a value, and the pure steps of loading it from
 * the URL fragment: the merge over the defaults, the legacy `assignments`
 * migration and the quantity backfill.
 */
module OrderData {
  import opened Wrappers

  /**
   * An orderable item. `desc` and `requester` are only ever tested for
   * JavaScript truthiness, so "" stands both for an absent and for an empty
   * field.
   */
  datatype Item = Item(name: string, desc: string, requester: string)

  /**
   * The global `state` object: the four fields of `defaultData`, and the
   * legacy `assignments` table that the spread at load time copies in from
   * an old link (absent otherwise) and that every later save writes back.
   */
  datatype StateRecord = StateRecord(
    staffList: seq<string>,
    itemList: seq<Item>,
    orders: map<string, int>,
    orderRemark: string,
    assignments: Option<map<string, string>>)

  /** `defaultData`. */
  const DefaultData: StateRecord := StateRecord([], [], map[], "", None)

  /**
   * The object `JSON.parse` yields from the fragment: each top-level field
   * may be present or absent; `assignments` is the legacy per-item requester
   * table of older links.
   */
  datatype DecodedRecord = DecodedRecord(
    staffList: Option<seq<string>>,
    itemList: Option<seq<Item>>,
    orders: Option<map<string, int>>,
    orderRemark: Option<string>,
    assignments: Option<map<string, string>>)

  /**
   * What reading the fragment gives: no fragment at all, one whose base64,
   * percent-decoding or JSON parsing throws, or a decoded record.
   */
  datatype Fragment = NoHash | Garbled | Decoded(record: DecodedRecord)

  /** The record a saved state decodes back to: every key `state` holds. */
  function Saved(s: StateRecord): DecodedRecord {
    DecodedRecord(Some(s.staffList), Some(s.itemList), Some(s.orders), Some(s.orderRemark), s.assignments)
  }

  /** `{ ...defaultData, ...loadedState }`, field by field. */
  function MergeOverDefaults(rec: DecodedRecord): StateRecord {
    StateRecord(
      rec.staffList.GetOr(DefaultData.staffList),
      rec.itemList.GetOr(DefaultData.itemList),
      rec.orders.GetOr(DefaultData.orders),
      rec.orderRemark.GetOr(DefaultData.orderRemark),
      rec.assignments)
  }

  /** `assignments[name]` is truthy. */
  predicate Assigned(assignments: map<string, string>, name: string) {
    name in assignments && assignments[name] != ""
  }

  /** One step of the migration loop: fill a falsy requester from `assignments`. */
  function MigrateItem(item: Item, assignments: map<string, string>): Item {
    if item.requester == "" && Assigned(assignments, item.name) then
      item.(requester := assignments[item.name])
    else
      item
  }

  /** The migration applied to every item, in place. */
  function MigrateItems(items: seq<Item>, assignments: map<string, string>): seq<Item> {
    seq(|items|, i requires 0 <= i < |items| => MigrateItem(items[i], assignments))
  }

  /** The migration runs only when the decoded object has `assignments`. */
  function Migrated(s: StateRecord, assignments: Option<map<string, string>>): StateRecord {
    match assignments
    case Some(a) => s.(itemList := MigrateItems(s.itemList, a))
    case None => s
  }

  /**
   * The backfill loop: for each item in turn, an item name with no `orders`
   * entry gets the entry 0.
   */
  function Backfill(items: seq<Item>, orders: map<string, int>): map<string, int>
    decreases |items|
  {
    if items == [] then orders
    else
      var name := items[0].name;
      Backfill(items[1..], if name in orders then orders else orders[name := 0])
  }

  /** Some item of `items` is called `k`. */
  predicate HasItemNamed(items: seq<Item>, k: string) {
    exists i :: 0 <= i < |items| && items[i].name == k
  }

  /** Every item name has an `orders` entry. */
  predicate CoversItems(items: seq<Item>, orders: map<string, int>) {
    forall i :: 0 <= i < |items| ==> items[i].name in orders
  }

  /** No name occurs twice. */
  predicate Distinct(names: seq<string>) {
    forall i, j :: 0 <= i < j < |names| ==> names[i] != names[j]
  }

  /** The item names, in catalogue order. */
  function Names(items: seq<Item>): seq<string> {
    seq(|items|, i requires 0 <= i < |items| => items[i].name)
  }

  /** No two items share a name. */
  predicate UniqueNames(items: seq<Item>) {
    Distinct(Names(items))
  }

  /**
   * A further migration pass would change no item: every item has a
   * requester or no truthy entry in `assignments`.
   */
  predicate MigrationSettled(items: seq<Item>, assignments: map<string, string>) {
    forall i :: 0 <= i < |items| ==> items[i].requester != "" || !Assigned(assignments, items[i].name)
  }

  /** The state's leftover `assignments`, if any, would change no item on the next load. */
  predicate Settled(s: StateRecord) {
    s.assignments.None? || MigrationSettled(s.itemList, s.assignments.value)
  }

  /** No quantity is negative. */
  predicate NonNegative(orders: map<string, int>) {
    forall k :: k in orders ==> orders[k] >= 0
  }

  /**
   * The state after `loadStateFromURL` ran on `prior`: a decoded record is
   * merged over the defaults and migrated; with no fragment, or one that
   * throws, the prior state stays; the backfill runs in every case.
   */
  function Loaded(prior: StateRecord, fragment: Fragment): StateRecord {
    var s := match fragment
      case Decoded(rec) => Migrated(MergeOverDefaults(rec), rec.assignments)
      case _ => prior;
    s.(orders := Backfill(s.itemList, s.orders))
  }

  /**
   * `itemList.findIndex(item => item.name === name)`: the first index whose
   * item is called `name`, or -1 when there is none.
   */
  function FirstIndex(items: seq<Item>, name: string): (r: int)
    ensures -1 <= r < |items|
    ensures 0 <= r ==> items[r].name == name
    ensures 0 <= r ==> forall j :: 0 <= j < r ==> items[j].name != name
    ensures r == -1 <==> !HasItemNamed(items, name)
    decreases |items|
  {
    if items == [] then -1
    else if items[0].name == name then 0
    else
      var k := FirstIndex(items[1..], name);
      if k == -1 then -1 else k + 1
  }

  /**
   * The backfill adds an entry for exactly the item names that lacked one,
   * with the value 0, and keeps every existing entry.
   */
  lemma {:induction false} BackfillSpec(items: seq<Item>, orders: map<string, int>)
    ensures forall k :: k in Backfill(items, orders) <==> k in orders || HasItemNamed(items, k)
    ensures forall k :: k in orders ==> Backfill(items, orders)[k] == orders[k]
    ensures forall k :: k in Backfill(items, orders) && k !in orders ==> Backfill(items, orders)[k] == 0
    decreases |items|
  {
    if items != [] {
      var name := items[0].name;
      var next := if name in orders then orders else orders[name := 0];
      BackfillSpec(items[1..], next);
      forall k ensures HasItemNamed(items, k) <==> k == name || HasItemNamed(items[1..], k) {
        if HasItemNamed(items, k) && k != name {
          var i :| 0 <= i < |items| && items[i].name == k;
          assert items[1..][i - 1].name == k;
        }
        if HasItemNamed(items[1..], k) {
          var i :| 0 <= i < |items[1..]| && items[1..][i].name == k;
          assert items[i + 1].name == k;
        }
      }
    }
  }

  /** After the backfill every item has an `orders` entry. */
  lemma BackfillCovers(items: seq<Item>, orders: map<string, int>)
    ensures CoversItems(items, Backfill(items, orders))
  {
    BackfillSpec(items, orders);
    forall i | 0 <= i < |items| ensures items[i].name in Backfill(items, orders) {
      assert HasItemNamed(items, items[i].name);
    }
  }

  /** When every item already has an entry the backfill changes nothing. */
  lemma {:induction false} BackfillNoop(items: seq<Item>, orders: map<string, int>)
    requires CoversItems(items, orders)
    ensures Backfill(items, orders) == orders
  {
    BackfillSpec(items, orders);
    var r := Backfill(items, orders);
    forall k | HasItemNamed(items, k) ensures k in orders {
      var i :| 0 <= i < |items| && items[i].name == k;
    }
    assert r.Keys == orders.Keys;
  }

  /** Running the backfill a second time changes nothing. */
  lemma BackfillIdempotent(items: seq<Item>, orders: map<string, int>)
    ensures Backfill(items, Backfill(items, orders)) == Backfill(items, orders)
  {
    BackfillCovers(items, orders);
    BackfillNoop(items, Backfill(items, orders));
  }

  /** The backfill adds only zeros, so non-negative quantities stay non-negative. */
  lemma {:induction false} BackfillNonNegative(items: seq<Item>, orders: map<string, int>)
    requires NonNegative(orders)
    ensures NonNegative(Backfill(items, orders))
  {
    BackfillSpec(items, orders);
  }

  /** After any load, with or without a fragment, every item has an `orders` entry. */
  lemma LoadedCoversItems(prior: StateRecord, fragment: Fragment)
    ensures CoversItems(Loaded(prior, fragment).itemList, Loaded(prior, fragment).orders)
  {
    var s := match fragment
      case Decoded(rec) => Migrated(MergeOverDefaults(rec), rec.assignments)
      case _ => prior;
    BackfillCovers(s.itemList, s.orders);
  }

  /**
   * Without a decodable fragment the prior state stays, up to the backfill;
   * from the defaults (the state at page load) the result is the defaults.
   */
  lemma LoadWithoutRecordKeepsPrior(prior: StateRecord, fragment: Fragment)
    requires !fragment.Decoded?
    ensures Loaded(prior, fragment).staffList == prior.staffList
    ensures Loaded(prior, fragment).itemList == prior.itemList
    ensures Loaded(prior, fragment).orderRemark == prior.orderRemark
    ensures Loaded(prior, fragment).assignments == prior.assignments
    ensures CoversItems(prior.itemList, prior.orders) ==> Loaded(prior, fragment) == prior
    ensures Loaded(DefaultData, fragment) == DefaultData
  {
    if CoversItems(prior.itemList, prior.orders) {
      BackfillNoop(prior.itemList, prior.orders);
    }
  }

  /**
   * Each top-level field the decoded record carries replaces the default and
   * each absent one takes the default; the loaded item list keeps its length,
   * names and descriptions; the loaded quantities keep their values and only
   * item names that lacked one gain the entry 0.
   */
  lemma LoadedFromRecord(prior: StateRecord, rec: DecodedRecord)
    ensures var l := Loaded(prior, Decoded(rec));
      && (rec.staffList.Some? ==> l.staffList == rec.staffList.value)
      && (rec.staffList.None? ==> l.staffList == DefaultData.staffList)
      && (rec.orderRemark.Some? ==> l.orderRemark == rec.orderRemark.value)
      && (rec.orderRemark.None? ==> l.orderRemark == DefaultData.orderRemark)
      && (rec.itemList.None? ==> l.itemList == DefaultData.itemList)
      && (rec.itemList.Some? ==> |l.itemList| == |rec.itemList.value|)
      && (rec.orders.None? ==> forall k :: k in l.orders ==> l.orders[k] == 0)
      && l.assignments == rec.assignments
    ensures var l := Loaded(prior, Decoded(rec)); var items := rec.itemList.GetOr([]);
      forall i :: 0 <= i < |items| ==>
        l.itemList[i].name == items[i].name && l.itemList[i].desc == items[i].desc
    ensures var l := Loaded(prior, Decoded(rec)); var orders := rec.orders.GetOr(map[]);
      && (forall k :: k in orders ==> k in l.orders && l.orders[k] == orders[k])
      && (forall k :: k in l.orders && k !in orders ==> HasItemNamed(l.itemList, k) && l.orders[k] == 0)
  {
    var s := Migrated(MergeOverDefaults(rec), rec.assignments);
    BackfillSpec(s.itemList, s.orders);
  }

  /**
   * With a legacy `assignments` table, an item whose requester is falsy takes
   * `assignments[name]` when that is truthy; an item with a requester is
   * never changed. Without the table the items load as they were.
   */
  lemma LoadedMigration(prior: StateRecord, rec: DecodedRecord)
    ensures var l := Loaded(prior, Decoded(rec)); var items := rec.itemList.GetOr([]);
      forall i :: 0 <= i < |items| ==>
        && (items[i].requester != "" ==> l.itemList[i] == items[i])
        && ((items[i].requester == "" && rec.assignments.Some? && Assigned(rec.assignments.value, items[i].name))
              ==> l.itemList[i].requester == rec.assignments.value[items[i].name])
        && ((items[i].requester == "" && (rec.assignments.None? || !Assigned(rec.assignments.value, items[i].name)))
              ==> l.itemList[i].requester == "")
    ensures rec.assignments.None? ==> Loaded(prior, Decoded(rec)).itemList == rec.itemList.GetOr([])
  {
  }

  /** On settled items the migration is the identity. */
  lemma MigrateSettledNoop(items: seq<Item>, assignments: map<string, string>)
    requires MigrationSettled(items, assignments)
    ensures MigrateItems(items, assignments) == items
  {
  }

  /**
   * A state just loaded from a record is settled: the `assignments` it keeps
   * have already been applied to every item they can change.
   */
  lemma LoadedIsSettled(prior: StateRecord, rec: DecodedRecord)
    ensures Settled(Loaded(prior, Decoded(rec)))
  {
  }

  /**
   * A settled state whose items all have quantities loads back unchanged
   * from the record it is saved as, whatever the state was before the load.
   */
  lemma SaveLoadRoundTrip(prior: StateRecord, s: StateRecord)
    requires CoversItems(s.itemList, s.orders)
    requires Settled(s)
    ensures Loaded(prior, Decoded(Saved(s))) == s
  {
    if s.assignments.Some? {
      MigrateSettledNoop(s.itemList, s.assignments.value);
    }
    BackfillNoop(s.itemList, s.orders);
  }

  /**
   * The leftover `assignments` apply again at every load of a saved link: an
   * item whose requester was cleared after a legacy load, and which has a
   * truthy entry, gets that entry back, so the state does not round-trip.
   */
  lemma LeftoverAssignmentsReapply(prior: StateRecord, s: StateRecord, i: nat)
    requires s.assignments.Some? && i < |s.itemList|
    requires s.itemList[i].requester == "" && Assigned(s.assignments.value, s.itemList[i].name)
    ensures Loaded(prior, Decoded(Saved(s))).itemList[i].requester == s.assignments.value[s.itemList[i].name]
    ensures Loaded(prior, Decoded(Saved(s))) != s
  {
  }

  /** The migration is idempotent: a second pass changes nothing. */
  lemma MigrateIdempotent(items: seq<Item>, assignments: map<string, string>)
    ensures MigrateItems(MigrateItems(items, assignments), assignments) == MigrateItems(items, assignments)
  {
  }
}
