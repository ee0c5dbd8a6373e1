/**
 * What the confirmation tab (`renderConfirmScreen`) shows: the items with a
 * positive quantity, in catalogue order, the empty-list message when there
 * are none, and the remark when it is not blank.
 */
module ConfirmView {
  import opened Wrappers
  import opened JsString
  import opened OrderData

  /**
   * `orders[name] > 0`; an absent entry reads as `undefined`, which is not
   * greater than 0.
   */
  predicate HasOrder(orders: map<string, int>, name: string) {
    name in orders && orders[name] > 0
  }

  /** One list entry: the item (name, desc, requester) and its count. */
  datatype ConfirmLine = ConfirmLine(item: Item, count: int)

  /** The confirmation tab: its list, whether the "no items" message replaces it, the remark shown. */
  datatype ConfirmScreen = ConfirmScreen(lines: seq<ConfirmLine>, emptyMessage: bool, remark: Option<string>)

  /** The lines the loop appends, one per item with a positive count, in item order. */
  function OrderedLines(items: seq<Item>, orders: map<string, int>): seq<ConfirmLine>
    decreases |items|
  {
    if items == [] then []
    else
      var last := items[|items| - 1];
      OrderedLines(items[..|items| - 1], orders)
        + (if HasOrder(orders, last.name) then [ConfirmLine(last, orders[last.name])] else [])
  }

  /** The selection keeps catalogue order: it distributes over concatenation. */
  lemma {:induction false} OrderedLinesConcat(a: seq<Item>, b: seq<Item>, orders: map<string, int>)
    ensures OrderedLines(a + b, orders) == OrderedLines(a, orders) + OrderedLines(b, orders)
    decreases |b|
  {
    if b == [] {
      assert a + b == a;
    } else {
      var b' := b[..|b| - 1];
      assert (a + b)[..|a + b| - 1] == a + b';
      assert (a + b)[|a + b| - 1] == b[|b| - 1];
      OrderedLinesConcat(a, b', orders);
    }
  }

  /**
   * A line is listed exactly when its item is in the catalogue with a
   * positive quantity, and it shows that quantity.
   */
  lemma {:induction false} OrderedLinesMembers(items: seq<Item>, orders: map<string, int>, line: ConfirmLine)
    ensures line in OrderedLines(items, orders) <==>
      line.item in items && HasOrder(orders, line.item.name) && line.count == orders[line.item.name]
    decreases |items|
  {
    if items != [] {
      var init := items[..|items| - 1];
      OrderedLinesMembers(init, orders, line);
      assert items == init + [items[|items| - 1]];
    }
  }

  /** The list is empty exactly when no item has a positive quantity. */
  lemma {:induction false} OrderedLinesEmpty(items: seq<Item>, orders: map<string, int>)
    ensures OrderedLines(items, orders) == [] <==>
      forall i :: 0 <= i < |items| ==> !HasOrder(orders, items[i].name)
  {
    if OrderedLines(items, orders) != [] {
      var line := OrderedLines(items, orders)[0];
      OrderedLinesMembers(items, orders, line);
    } else {
      forall i | 0 <= i < |items| ensures !HasOrder(orders, items[i].name) {
        var item := items[i];
        if HasOrder(orders, item.name) {
          OrderedLinesMembers(items, orders, ConfirmLine(item, orders[item.name]));
        }
      }
    }
  }

  /**
   * The remark block: shown when `orderRemark && orderRemark.trim() !== ''`,
   * that is, exactly when the remark has a character other than white space.
   */
  function ShownRemark(remark: string): (r: Option<string>)
    ensures r.Some? <==> !AllWhiteSpace(remark)
    ensures r.Some? ==> r.value == remark
  {
    TrimEmptyIffBlank(remark);
    if remark != "" && Trim(remark) != "" then Some(remark) else None
  }

  /**
   * `renderConfirmScreen`: the remark block is shown exactly when the remark
   * has a character other than white space; the list is the ordered
   * selection; the empty-list message appears exactly when no item has a
   * positive quantity.
   */
  method RenderConfirmScreen(items: seq<Item>, orders: map<string, int>, remark: string)
    returns (view: ConfirmScreen)
    ensures view.lines == OrderedLines(items, orders)
    ensures view.emptyMessage <==> forall i :: 0 <= i < |items| ==> !HasOrder(orders, items[i].name)
    ensures view.remark.Some? <==> !AllWhiteSpace(remark)
    ensures view.remark.Some? ==> view.remark.value == remark
  {
    var lines: seq<ConfirmLine> := [];
    var hasOrder := false;
    var i := 0;
    while i < |items|
      invariant 0 <= i <= |items|
      invariant lines == OrderedLines(items[..i], orders)
      invariant hasOrder <==> exists j :: 0 <= j < i && HasOrder(orders, items[j].name)
    {
      var item := items[i];
      assert items[..i + 1][..i] == items[..i];
      assert OrderedLines(items[..i + 1], orders) == OrderedLines(items[..i], orders)
        + (if HasOrder(orders, item.name) then [ConfirmLine(item, orders[item.name])] else []);
      if item.name in orders && orders[item.name] > 0 {
        hasOrder := true;
        lines := lines + [ConfirmLine(item, orders[item.name])];
      }
      i := i + 1;
    }
    assert items[..i] == items;
    view := ConfirmScreen(lines, !hasOrder, ShownRemark(remark));
  }
}
