/** The shopping cart page: an ordered list of cart lines that the page replaces
    wholesale on every quantity change or removal, and the derived total.
    Money is counted in integer cents, so 99.99 is 9999. */
module CartPage {
  import opened Seqs

  /** One cart line; `price` is in cents. */
  datatype Line = Line(id: int, name: string, price: int, quantity: int, image: string)

  /** The two lines the page starts with. */
  function InitialItems(): seq<Line> {
    [ Line(1, "Product 1", 9999, 1, "https://via.placeholder.com/100"),
      Line(2, "Product 2", 14999, 2, "https://via.placeholder.com/100") ]
  }

  function Max(a: int, b: int): int {
    if a < b then b else a
  }

  /** The line after a quantity change for `id`: the matching line gets
      its quantity moved by `change`, but never below 1. */
  function ChangeLine(l: Line, id: int, change: int): Line {
    if l.id == id then l.(quantity := Max(1, l.quantity + change)) else l
  }

  /** The list produced by a quantity change (a `map` over the lines). */
  function QuantityChanged(s: seq<Line>, id: int, change: int): seq<Line> {
    seq(|s|, i requires 0 <= i < |s| => ChangeLine(s[i], id, change))
  }

  /** The filter predicate of a removal: keep lines with another id. */
  function OtherId(id: int): Line -> bool {
    (l: Line) => l.id != id
  }

  function HasId(id: int): Line -> bool {
    (l: Line) => l.id == id
  }

  /** The list produced by removing `id` (a `filter` over the lines). */
  function Removed(s: seq<Line>, id: int): seq<Line> {
    Filter(s, OtherId(id))
  }

  /** What one line adds to the total. */
  function Subtotal(l: Line): int {
    l.price * l.quantity
  }

  /** Reference definition of the total: the sum of all subtotals. */
  function Sum(s: seq<Line>): int {
    if s == [] then 0 else Subtotal(s[0]) + Sum(s[1..])
  }

  /** The running total of the `reduce` call, starting from `acc`. */
  function RunningTotal(acc: int, s: seq<Line>): int
    decreases |s|
  {
    if s == [] then acc else RunningTotal(acc + Subtotal(s[0]), s[1..])
  }

  predicate QuantitiesPositive(s: seq<Line>) {
    forall i :: 0 <= i < |s| ==> s[i].quantity >= 1
  }

  predicate UniqueIds(s: seq<Line>) {
    forall i, j :: 0 <= i < j < |s| ==> s[i].id != s[j].id
  }

  /** The cart's state: the page-level list of lines. */
  class Cart {
    var items: seq<Line>

    constructor ()
      ensures items == InitialItems()
    {
      items := InitialItems();
    }

    /** The quantity buttons: every line with this id gets `max(1, quantity + change)`. */
    method ChangeQuantity(id: int, change: int)
      modifies this
      ensures items == QuantityChanged(old(items), id, change)
      ensures QuantitiesPositive(old(items)) ==> QuantitiesPositive(items)
      ensures UniqueIds(old(items)) ==> UniqueIds(items)
    {
      items := QuantityChanged(items, id, change);
    }

    /** The delete button: drops every line with this id. */
    method Remove(id: int)
      modifies this
      ensures items == Removed(old(items), id)
      ensures QuantitiesPositive(old(items)) ==> QuantitiesPositive(items)
      ensures UniqueIds(old(items)) ==> UniqueIds(items)
    {
      RemovedKeepsInvariants(items, id);
      items := Removed(items, id);
    }

    /** The displayed total, computed as the page's `reduce` does. */
    function Total(): (t: int)
      reads this
      ensures t == Sum(items)
      ensures items == [] ==> t == 0
    {
      RunningTotalIsSum(0, items);
      RunningTotal(0, items)
    }

    /** The test that switches the page to "Your cart is empty". */
    function IsEmpty(): (b: bool)
      reads this
      ensures b <==> items == []
      ensures b ==> Total() == 0
    {
      |items| == 0
    }
  }

  /** The `reduce` from 0 computes the reference sum. */
  lemma {:induction false} RunningTotalIsSum(acc: int, s: seq<Line>)
    ensures RunningTotal(acc, s) == acc + Sum(s)
    decreases |s|
  {
    if s != [] {
      RunningTotalIsSum(acc + Subtotal(s[0]), s[1..]);
    }
  }

  lemma InitialTotal()
    ensures RunningTotal(0, InitialItems()) == 39997
    ensures QuantitiesPositive(InitialItems()) && UniqueIds(InitialItems())
  {
    RunningTotalIsSum(0, InitialItems());
    var s := InitialItems();
    assert s[1..][1..] == [];
  }

  /** A quantity change: the changed line gets `max(1, quantity + change)`, at
      least 1; its other fields, every other line, the length and the order are kept. */
  lemma QuantityChangedAt(s: seq<Line>, id: int, change: int, i: int)
    requires 0 <= i < |s|
    ensures |QuantityChanged(s, id, change)| == |s|
    ensures var r := QuantityChanged(s, id, change)[i];
      && r.id == s[i].id && r.name == s[i].name && r.price == s[i].price && r.image == s[i].image
      && (s[i].id == id ==> r.quantity == Max(1, s[i].quantity + change) && r.quantity >= 1)
      && (s[i].id != id ==> r == s[i])
  {
  }

  /** A quantity change for an id that is not in the cart changes nothing. */
  lemma QuantityChangedAbsent(s: seq<Line>, id: int, change: int)
    requires forall i :: 0 <= i < |s| ==> s[i].id != id
    ensures QuantityChanged(s, id, change) == s
  {
  }

  /** Membership in a removal result: exactly the lines with another id. */
  lemma RemovedMembers(s: seq<Line>, id: int, l: Line)
    ensures l in Removed(s, id) <==> l in s && l.id != id
  {
  }

  /** Removal keeps the order of the surviving lines. */
  lemma RemovedIsSubsequence(s: seq<Line>, id: int)
    ensures IsSubsequence(Removed(s, id), s)
    ensures |Removed(s, id)| <= |s|
  {
    FilterIsSubsequence(s, OtherId(id));
  }

  /** Removing an absent id is a no-op. */
  lemma RemovedAbsent(s: seq<Line>, id: int)
    requires forall i :: 0 <= i < |s| ==> s[i].id != id
    ensures Removed(s, id) == s
  {
    forall l | l in s ensures OtherId(id)(l) {
      var i :| 0 <= i < |s| && s[i] == l;
    }
    FilterKeepsAll(s, OtherId(id));
  }

  /** Removing the same id twice is removing it once. */
  lemma RemovedTwice(s: seq<Line>, id: int)
    ensures Removed(Removed(s, id), id) == Removed(s, id)
  {
    FilterIdempotent(s, OtherId(id));
  }

  /** Removal keeps quantities positive and ids unique. */
  lemma {:induction false} RemovedKeepsInvariants(s: seq<Line>, id: int)
    ensures QuantitiesPositive(s) ==> QuantitiesPositive(Removed(s, id))
    ensures UniqueIds(s) ==> UniqueIds(Removed(s, id))
  {
    if s != [] {
      RemovedKeepsInvariants(s[1..], id);
      var t := Removed(s[1..], id);
      if OtherId(id)(s[0]) {
        assert Removed(s, id) == [s[0]] + t;
        if UniqueIds(s) {
          forall j | 0 <= j < |t| ensures t[j].id != s[0].id {
            assert t[j] in t;
            var k :| 0 <= k < |s[1..]| && s[1..][k] == t[j];
            assert s[k + 1] == t[j];
          }
        }
        if QuantitiesPositive(s) {
          forall j | 0 <= j < |t| ensures t[j].quantity >= 1 {
            assert t[j] in t;
            var k :| 0 <= k < |s[1..]| && s[1..][k] == t[j];
            assert s[k + 1] == t[j];
          }
        }
      }
    }
  }

  /** Removing id k lowers the total by exactly what the lines with id k contributed. */
  lemma {:induction false} RemovedTotal(s: seq<Line>, id: int)
    ensures Sum(s) == Sum(Removed(s, id)) + Sum(Filter(s, HasId(id)))
  {
    if s != [] {
      RemovedTotal(s[1..], id);
      if s[0].id == id {
        assert Filter(s, HasId(id)) == [s[0]] + Filter(s[1..], HasId(id));
      } else {
        assert Removed(s, id) == [s[0]] + Removed(s[1..], id);
      }
    }
  }

  /** A user action on the cart page. */
  datatype Action = ChangeQuantityOf(id: int, change: int) | RemoveLine(id: int)

  function Step(s: seq<Line>, a: Action): seq<Line> {
    match a
    case ChangeQuantityOf(id, change) => QuantityChanged(s, id, change)
    case RemoveLine(id) => Removed(s, id)
  }

  /** The lines after a sequence of actions, applied from first to last. */
  function Replay(s: seq<Line>, actions: seq<Action>): seq<Line>
    decreases |actions|
  {
    if actions == [] then s else Replay(Step(s, actions[0]), actions[1..])
  }

  /** If every line starts at quantity 1 or more, no sequence of quantity
      changes and removals brings one below 1, nor duplicates an id. */
  lemma {:induction false} ReplayKeepsInvariants(s: seq<Line>, actions: seq<Action>)
    ensures QuantitiesPositive(s) ==> QuantitiesPositive(Replay(s, actions))
    ensures UniqueIds(s) ==> UniqueIds(Replay(s, actions))
    decreases |actions|
  {
    if actions != [] {
      if actions[0].RemoveLine? {
        RemovedKeepsInvariants(s, actions[0].id);
      }
      ReplayKeepsInvariants(Step(s, actions[0]), actions[1..]);
    }
  }

  /** Clicking "-" a thousand times' worth on quantity 3 still leaves 1. */
  lemma ClampExample()
    ensures QuantityChanged([Line(7, "x", 100, 3, "")], 7, -1000) == [Line(7, "x", 100, 1, "")]
  {
  }
}
