/**
 * What the cart routes of `server/server.js` do to a cart's lines: add
 * (accumulate or append), set a quantity (clamped to at least 1) and remove.
 * The route methods in `Routes` change the lines step by step; these
 * functions are their specifications.
 */
module Carts {
  import opened Wrappers
  import opened Seqs
  import opened Domain

  /** The quantity on the cart's line for `itemId`, 0 when there is none. */
  function QtyOf(lines: seq<Line>, itemId: string): (q: int)
  {
    match FindBy(lines, LineItem, itemId)
    case Some(l) => l.qty
    case None => 0
  }

  /** The data model's cart invariant, first half: at most one line per item. */
  ghost predicate OneLinePerItem(lines: seq<Line>)
  {
    UniqueKeys(lines, LineItem)
  }

  /** The data model's cart invariant, second half: every quantity is at least 1. */
  ghost predicate PositiveQuantities(lines: seq<Line>)
  {
    forall j :: 0 <= j < |lines| ==> lines[j].qty >= 1
  }

  /** `Math.max(1, qty)`. */
  function AtLeastOne(qty: int): (r: int)
    ensures r >= 1 && r >= qty
    ensures qty >= 1 ==> r == qty
    ensures qty < 1 ==> r == 1
  {
    if qty < 1 then 1 else qty
  }

  /**
   * Add to cart: `qty` more on the line for `itemId`, a new line at the end
   * when there is none. This is an upsert of the line carrying the sum.
   */
  function AddLine(lines: seq<Line>, itemId: string, qty: int): (r: seq<Line>)
    ensures |lines| <= |r| <= |lines| + 1
    ensures forall j :: 0 <= j < |lines| && lines[j].itemId != itemId ==> r[j] == lines[j]
  {
    var idx := IndexOf(lines, LineItem, itemId);
    if idx == -1 then lines + [Line(itemId, qty)]
    else lines[idx := lines[idx].(qty := lines[idx].qty + qty)]
  }

  /** Adding is an upsert of the item's line carrying the old quantity plus the amount. */
  lemma AddLineIsUpsert(lines: seq<Line>, itemId: string, qty: int)
    ensures AddLine(lines, itemId, qty) == Upsert(lines, Line(itemId, QtyOf(lines, itemId) + qty), LineItem)
  {
    var idx := IndexOf(lines, LineItem, itemId);
    if idx != -1 {
      assert QtyOf(lines, itemId) == lines[idx].qty;
    }
  }

  /**
   * Set quantity: nothing when the cart has no line for `itemId`; otherwise
   * that line's quantity becomes `max(1, qty)` and no other line changes.
   */
  function SetLineQty(lines: seq<Line>, itemId: string, qty: int): (r: Option<seq<Line>>)
    ensures r.None? <==> FindBy(lines, LineItem, itemId).None?
    ensures r.Some? ==> r.value == Upsert(lines, Line(itemId, AtLeastOne(qty)), LineItem)
    ensures r.Some? ==> |r.value| == |lines| && QtyOf(r.value, itemId) == AtLeastOne(qty)
    ensures r.Some? ==> forall j :: 0 <= j < |lines| && lines[j].itemId != itemId ==> r.value[j] == lines[j]
  {
    var idx := IndexOf(lines, LineItem, itemId);
    if idx == -1 then None
    else Some(lines[idx := lines[idx].(qty := AtLeastOne(qty))])
  }

  /** Remove from cart: every line for `itemId` dropped, the others kept. */
  function RemoveLine(lines: seq<Line>, itemId: string): (r: seq<Line>)
    ensures QtyOf(r, itemId) == 0
    ensures forall l :: l in r ==> l in lines && l.itemId != itemId
    ensures forall l :: l in lines && l.itemId != itemId ==> l in r
  {
    RemoveKey(lines, LineItem, itemId)
  }

  /** `AddLine` as the route computes it: append when the item has no line, otherwise bump that line. */
  lemma AddLineSteps(lines: seq<Line>, itemId: string, qty: int, idx: int, result: seq<Line>)
    requires idx == IndexOf(lines, LineItem, itemId)
    requires idx == -1 ==> result == lines + [Line(itemId, qty)]
    requires idx != -1 ==> result == lines[idx := lines[idx].(qty := lines[idx].qty + qty)]
    ensures result == AddLine(lines, itemId, qty)
  {
  }

  // ------------------------------------------------------------ properties

  /** Adding raises the item's quantity by the amount, and adds a line only when the item had none. */
  lemma AddLineQty(lines: seq<Line>, itemId: string, qty: int)
    ensures QtyOf(AddLine(lines, itemId, qty), itemId) == QtyOf(lines, itemId) + qty
    ensures |AddLine(lines, itemId, qty)| == |lines| + (if FindBy(lines, LineItem, itemId).None? then 1 else 0)
  {
    var l := Line(itemId, QtyOf(lines, itemId) + qty);
    AddLineIsUpsert(lines, itemId, qty);
    assert FindBy(Upsert(lines, l, LineItem), LineItem, l.itemId) == Some(l);
  }

  /** Adding to one item leaves every other item's quantity as it was. */
  lemma AddLineOtherItem(lines: seq<Line>, itemId: string, qty: int, other: string)
    requires other != itemId
    ensures QtyOf(AddLine(lines, itemId, qty), other) == QtyOf(lines, other)
  {
    AddLineIsUpsert(lines, itemId, qty);
    UpsertOtherKey(lines, Line(itemId, QtyOf(lines, itemId) + qty), LineItem, other);
  }

  /** Adding keeps one line per item. */
  lemma AddLineOneLinePerItem(lines: seq<Line>, itemId: string, qty: int)
    requires OneLinePerItem(lines)
    ensures OneLinePerItem(AddLine(lines, itemId, qty))
  {
    AddLineIsUpsert(lines, itemId, qty);
    UpsertUniqueKeys(lines, Line(itemId, QtyOf(lines, itemId) + qty), LineItem);
  }

  /** Adding `a` and then `b` of an item not yet in the cart gives one new line of `a + b`. */
  lemma AddLineTwice(lines: seq<Line>, itemId: string, a: int, b: int)
    requires FindBy(lines, LineItem, itemId).None?
    ensures var r := AddLine(AddLine(lines, itemId, a), itemId, b);
      |r| == |lines| + 1 && QtyOf(r, itemId) == a + b
  {
    var once := AddLine(lines, itemId, a);
    AddLineQty(lines, itemId, a);
    AddLineIsUpsert(lines, itemId, a);
    assert FindBy(once, LineItem, itemId).Some?;
    AddLineQty(once, itemId, b);
  }

  /** A positive amount keeps every quantity positive. */
  lemma AddLinePositive(lines: seq<Line>, itemId: string, qty: int)
    requires PositiveQuantities(lines) && qty >= 1
    ensures PositiveQuantities(AddLine(lines, itemId, qty))
  {
    var l := Line(itemId, QtyOf(lines, itemId) + qty);
    var r := AddLine(lines, itemId, qty);
    AddLineIsUpsert(lines, itemId, qty);
    assert QtyOf(lines, itemId) >= 0;
    assert forall y :: y in r ==> y == l || y in lines;
  }

  /** The add route does not check the amount: adding 0 to an empty cart makes a line of quantity 0. */
  lemma AddLineAcceptsZero(itemId: string)
    ensures AddLine([], itemId, 0) == [Line(itemId, 0)]
    ensures !PositiveQuantities(AddLine([], itemId, 0))
  {
    assert IndexOf([], LineItem, itemId) == -1;
    assert AddLine([], itemId, 0)[0].qty == 0;
  }

  /** Setting a quantity keeps both halves of the cart invariant. */
  lemma SetLineQtyKeepsInvariant(lines: seq<Line>, itemId: string, qty: int)
    requires SetLineQty(lines, itemId, qty).Some?
    ensures OneLinePerItem(lines) ==> OneLinePerItem(SetLineQty(lines, itemId, qty).value)
    ensures PositiveQuantities(lines) ==> PositiveQuantities(SetLineQty(lines, itemId, qty).value)
  {
    var l := Line(itemId, AtLeastOne(qty));
    var r := SetLineQty(lines, itemId, qty).value;
    if OneLinePerItem(lines) {
      UpsertUniqueKeys(lines, l, LineItem);
    }
    assert forall y :: y in r ==> y == l || y in lines;
  }

  /** Removing twice is removing once. */
  lemma RemoveLineIdempotent(lines: seq<Line>, itemId: string)
    ensures RemoveLine(RemoveLine(lines, itemId), itemId) == RemoveLine(lines, itemId)
  {
    RemoveKeyIdempotent(lines, LineItem, itemId);
  }

  /** Removing an item that is not in the cart leaves the cart as it was. */
  lemma RemoveAbsentLine(lines: seq<Line>, itemId: string)
    requires FindBy(lines, LineItem, itemId).None?
    ensures RemoveLine(lines, itemId) == lines
  {
    RemoveAbsentKey(lines, LineItem, itemId);
  }

  /** Removing keeps the order of the remaining lines and both halves of the cart invariant. */
  lemma RemoveLineKeepsInvariant(lines: seq<Line>, itemId: string)
    ensures Subsequence(RemoveLine(lines, itemId), lines)
    ensures OneLinePerItem(lines) ==> OneLinePerItem(RemoveLine(lines, itemId))
    ensures PositiveQuantities(lines) ==> PositiveQuantities(RemoveLine(lines, itemId))
  {
    RemoveKeySubsequence(lines, LineItem, itemId);
    if OneLinePerItem(lines) {
      SubsequenceUniqueKeys(RemoveLine(lines, itemId), lines, LineItem);
    }
  }

  /**
   * The worked example: 2 of "a1" into an empty cart, then quantity 0
   * (raised to 1), then removal, which leaves the cart empty.
   */
  lemma CartScenario()
    ensures AddLine([], "a1", 2) == [Line("a1", 2)]
    ensures SetLineQty([Line("a1", 2)], "a1", 0) == Some([Line("a1", 1)])
    ensures RemoveLine([Line("a1", 1)], "a1") == []
  {
    assert IndexOf([Line("a1", 2)], LineItem, "a1") == 0;
    assert [Line("a1", 2)][0 := Line("a1", 1)] == [Line("a1", 1)];
  }
}
