/**
 * The product picker: the list of selected products with their quantities,
 * replaced as a whole by each user action, and the total shown under it.
 */
module Selection {
  import opened Common
  import opened JsNumbers

  /** A catalogue entry; `price` is in minor currency units. */
  datatype Product = Product(id: int, name: string, description: string, price: int, image: string)

  /** A selected product, `{...product, quantity}`. */
  datatype Item = Item(product: Product, quantity: int)

  /** `selected.some(item => item.id === id)` */
  predicate IsSelected(selected: seq<Item>, id: int) {
    exists i :: 0 <= i < |selected| && selected[i].product.id == id
  }

  predicate UniqueIds(selected: seq<Item>) {
    forall i, j :: 0 <= i < j < |selected| ==> selected[i].product.id != selected[j].product.id
  }

  /** The number of items carrying `id`. */
  function CountId(selected: seq<Item>, id: int): (n: nat)
    ensures n <= |selected|
  {
    if selected == [] then 0
    else (if selected[0].product.id == id then 1 else 0) + CountId(selected[1..], id)
  }

  /** Some row carries `id` exactly when the count of rows with `id` is positive. */
  lemma {:induction false} CountIdPositiveIffSelected(selected: seq<Item>, id: int)
    ensures CountId(selected, id) > 0 <==> IsSelected(selected, id)
    decreases |selected|
  {
    if selected != [] {
      var rest := selected[1..];
      CountIdPositiveIffSelected(rest, id);
      if IsSelected(rest, id) {
        var i :| 0 <= i < |rest| && rest[i].product.id == id;
        assert selected[i + 1] == rest[i];
      }
      if IsSelected(selected, id) && selected[0].product.id != id {
        var i :| 0 <= i < |selected| && selected[i].product.id == id;
        assert rest[i - 1] == selected[i];
      }
    }
  }

  /** `a` is `b` with some items deleted and the rest in their original order. */
  predicate IsSubsequence(a: seq<Item>, b: seq<Item>)
    decreases |b|
  {
    if a == [] then true
    else if b == [] then false
    else if a[0] == b[0] then IsSubsequence(a[1..], b[1..])
    else IsSubsequence(a, b[1..])
  }

  /** `selected.filter(item => item.id !== id)` */
  function Without(selected: seq<Item>, id: int): (r: seq<Item>)
    ensures |r| == |selected| - CountId(selected, id)
  {
    if selected == [] then []
    else if selected[0].product.id == id then Without(selected[1..], id)
    else [selected[0]] + Without(selected[1..], id)
  }

  /** The survivors of the filter are exactly the items with another id. */
  lemma {:induction false} WithoutMembers(selected: seq<Item>, id: int)
    ensures forall x :: x in Without(selected, id) <==> x in selected && x.product.id != id
  {
    if selected != [] {
      WithoutMembers(selected[1..], id);
      assert selected == [selected[0]] + selected[1..];
    }
  }

  /** Clicking a product card: add it with quantity 1 if it is not selected, otherwise drop it. */
  function Toggle(selected: seq<Item>, p: Product): (r: seq<Item>)
    ensures IsSelected(r, p.id) <==> !IsSelected(selected, p.id)
    ensures !IsSelected(selected, p.id) ==>
      |r| == |selected| + 1 && r[..|selected|] == selected && r[|selected|] == Item(p, 1)
  {
    if IsSelected(selected, p.id) then
      var r := Without(selected, p.id);
      WithoutMembers(selected, p.id);
      assert forall i :: 0 <= i < |r| ==> r[i] in r;
      r
    else
      var r := selected + [Item(p, 1)];
      assert r[|selected|] == Item(p, 1);
      r
  }

  /** `parseInt(quantity) || 1`: NaN and 0 both become 1; other values, negative ones included, are kept. */
  function Quantity(text: string): (q: int)
    ensures q != 0
    ensures ParseInt(text).Some? && ParseInt(text).value != 0 ==> q == ParseInt(text).value
    ensures ParseInt(text) == None || ParseInt(text) == Some(0) ==> q == 1
  {
    match ParseInt(text)
    case None => 1
    case Some(n) => if n == 0 then 1 else n
  }

  /** Editing the quantity field of the row for `id`. */
  function SetQuantity(selected: seq<Item>, id: int, text: string): (r: seq<Item>)
    ensures |r| == |selected|
    ensures forall i :: 0 <= i < |r| ==> r[i].product == selected[i].product
    ensures forall i :: 0 <= i < |r| && selected[i].product.id != id ==> r[i] == selected[i]
    ensures forall i :: 0 <= i < |r| && selected[i].product.id == id ==> r[i].quantity == Quantity(text)
  {
    seq(|selected|, i requires 0 <= i < |selected| =>
      if selected[i].product.id == id then selected[i].(quantity := Quantity(text)) else selected[i])
  }

  /** `selected.reduce((total, item) => total + item.price * item.quantity, 0)`, in minor units. */
  function Total(selected: seq<Item>): int {
    if selected == [] then 0
    else Total(selected[..|selected| - 1]) + selected[|selected| - 1].product.price * selected[|selected| - 1].quantity
  }

  /** The request handed to the checkout callback: the selection as it is, and only when it is non-empty. */
  function CheckoutRequest(selected: seq<Item>): (r: Option<seq<Item>>)
    ensures r.Some? <==> |selected| > 0
    ensures r.Some? ==> r.value == selected
  {
    if |selected| > 0 then Some(selected) else None
  }

  // ---- Removal ----

  lemma {:induction false} WithoutIsSubsequence(selected: seq<Item>, id: int)
    ensures IsSubsequence(Without(selected, id), selected)
  {
    if selected != [] {
      WithoutIsSubsequence(selected[1..], id);
      var rest := Without(selected[1..], id);
      if selected[0].product.id == id {
        if rest != [] {
          WithoutMembers(selected[1..], id);
          assert rest[0] in rest;
          assert rest[0] != selected[0];
        }
      } else {
        assert ([selected[0]] + rest)[1..] == rest;
      }
    }
  }

  lemma {:induction false} WithoutAbsent(selected: seq<Item>, id: int)
    requires !IsSelected(selected, id)
    ensures Without(selected, id) == selected
  {
    if selected != [] {
      assert !IsSelected(selected[1..], id) by {
        forall i | 0 <= i < |selected[1..]| ensures selected[1..][i].product.id != id {
          assert selected[1..][i] == selected[i + 1];
        }
      }
      WithoutAbsent(selected[1..], id);
      assert selected[0].product.id != id;
      assert selected == [selected[0]] + selected[1..];
    }
  }

  /**
   * Deselecting drops every item with the product's id, keeps every other item,
   * and keeps the survivors in their original order.
   */
  lemma ToggleRemoves(selected: seq<Item>, p: Product)
    requires IsSelected(selected, p.id)
    ensures var r := Toggle(selected, p);
      && IsSubsequence(r, selected)
      && |r| == |selected| - CountId(selected, p.id)
      && (forall x :: x in selected && x.product.id != p.id ==> x in r)
      && (forall i :: 0 <= i < |r| ==> r[i].product.id != p.id)
  {
    WithoutIsSubsequence(selected, p.id);
    WithoutMembers(selected, p.id);
    var r := Toggle(selected, p);
    assert forall i :: 0 <= i < |r| ==> r[i] in r;
  }

  lemma {:induction false} SubsequenceKeepsUnique(a: seq<Item>, b: seq<Item>)
    requires IsSubsequence(a, b) && UniqueIds(b)
    ensures UniqueIds(a)
    decreases |b|
  {
    if a != [] && b != [] {
      if a[0] == b[0] {
        SubsequenceKeepsUnique(a[1..], b[1..]);
        SubsequenceMembers(a[1..], b[1..]);
        forall j | 0 < j < |a| ensures a[0].product.id != a[j].product.id {
          assert a[1..][j - 1] == a[j];
          var k :| 0 <= k < |b[1..]| && b[1..][k] == a[j];
          assert b[k + 1] == a[j];
        }
      } else {
        SubsequenceKeepsUnique(a, b[1..]);
      }
    }
  }

  lemma {:induction false} SubsequenceMembers(a: seq<Item>, b: seq<Item>)
    requires IsSubsequence(a, b)
    ensures forall j :: 0 <= j < |a| ==> exists k :: 0 <= k < |b| && b[k] == a[j]
    decreases |b|
  {
    if a != [] && b != [] {
      if a[0] == b[0] {
        SubsequenceMembers(a[1..], b[1..]);
        forall j | 0 < j < |a| ensures exists k :: 0 <= k < |b| && b[k] == a[j] {
          assert a[1..][j - 1] == a[j];
          var k :| 0 <= k < |b[1..]| && b[1..][k] == a[j];
          assert b[k + 1] == a[j];
        }
        assert b[0] == a[0];
      } else {
        SubsequenceMembers(a, b[1..]);
        forall j | 0 <= j < |a| ensures exists k :: 0 <= k < |b| && b[k] == a[j] {
          var k :| 0 <= k < |b[1..]| && b[1..][k] == a[j];
          assert b[k + 1] == a[j];
        }
      }
    }
  }

  /** Selecting or deselecting never creates two rows for the same product. */
  lemma ToggleKeepsUnique(selected: seq<Item>, p: Product)
    requires UniqueIds(selected)
    ensures UniqueIds(Toggle(selected, p))
  {
    if IsSelected(selected, p.id) {
      WithoutIsSubsequence(selected, p.id);
      SubsequenceKeepsUnique(Without(selected, p.id), selected);
    }
  }

  /** Selecting a product that was not selected and then deselecting it gives back the same list. */
  lemma ToggleTwiceRestores(selected: seq<Item>, p: Product)
    requires !IsSelected(selected, p.id)
    ensures Toggle(Toggle(selected, p), p) == selected
  {
    var once := selected + [Item(p, 1)];
    assert Toggle(selected, p) == once;
    assert once[|selected|].product.id == p.id;
    WithoutAppend(selected, [Item(p, 1)], p.id);
    WithoutAbsent(selected, p.id);
    assert Without([Item(p, 1)], p.id) == [];
  }

  lemma {:induction false} WithoutAppend(a: seq<Item>, b: seq<Item>, id: int)
    ensures Without(a + b, id) == Without(a, id) + Without(b, id)
  {
    if a == [] {
      assert a + b == b;
    } else {
      assert (a + b)[0] == a[0];
      assert (a + b)[1..] == a[1..] + b;
      WithoutAppend(a[1..], b, id);
    }
  }

  // ---- Quantities ----

  /** A quantity typed as a decimal number is taken as that number, except that 0 becomes 1. */
  lemma QuantityOfTypedNumber(n: nat)
    ensures Quantity(NatToString(n)) == if n == 0 then 1 else n
    ensures Quantity("-" + NatToString(n)) == if n == 0 then 1 else -(n as int)
  {
    ParseIntOfNatToString(n, []);
    assert NatToString(n) + [] == NatToString(n);
    ParseIntOfNegated(n);
  }

  /** Examples of the `parseInt(q) || 1` rule: an empty field and 0 become 1, a negative number is kept. */
  lemma QuantityExamples()
    ensures Quantity("") == 1
    ensures Quantity("0") == 1
    ensures Quantity("-2") == -2
  {
    assert TrimStart("") == "";
    assert NatToString(0) == "0";
    QuantityOfTypedNumber(0);
    assert "-" + NatToString(2) == "-2";
    QuantityOfTypedNumber(2);
  }

  /** A fractional quantity is cut at the point: "2.5" gives 2. */
  lemma QuantityTruncates()
    ensures Quantity("2.5") == 2
  {
    assert NatToString(2) == "2";
    ParseIntOfNatToString(2, ".5");
    assert NatToString(2) + ".5" == "2.5";
  }

  /** Editing a quantity changes neither which products are selected nor the order of the rows. */
  lemma SetQuantityKeepsSelection(selected: seq<Item>, id: int, text: string, other: int)
    ensures IsSelected(SetQuantity(selected, id, text), other) <==> IsSelected(selected, other)
    ensures UniqueIds(SetQuantity(selected, id, text)) <==> UniqueIds(selected)
  {
  }

  /** Entering the same text twice has the effect of entering it once. */
  lemma SetQuantityIdempotent(selected: seq<Item>, id: int, text: string)
    ensures SetQuantity(SetQuantity(selected, id, text), id, text) == SetQuantity(selected, id, text)
  {
  }

  // ---- Total ----

  lemma {:induction false} TotalAppend(a: seq<Item>, b: seq<Item>)
    ensures Total(a + b) == Total(a) + Total(b)
    decreases |b|
  {
    if b == [] {
      assert a + b == a;
    } else {
      var b' := b[..|b| - 1];
      assert (a + b)[..|a + b| - 1] == a + b';
      TotalAppend(a, b');
    }
  }

  /** The total is the sum of the line subtotals in either order of summation, starting from the first row. */
  lemma TotalFromFront(selected: seq<Item>)
    requires selected != []
    ensures Total(selected) == selected[0].product.price * selected[0].quantity + Total(selected[1..])
  {
    assert selected == [selected[0]] + selected[1..];
    TotalAppend([selected[0]], selected[1..]);
    assert [selected[0]][..0] == [];
  }

  /** With non-negative prices and positive quantities the total is not negative. */
  lemma {:induction false} TotalNonNegative(selected: seq<Item>)
    requires forall i :: 0 <= i < |selected| ==> selected[i].product.price >= 0 && selected[i].quantity >= 1
    ensures Total(selected) >= 0
  {
    if selected != [] {
      TotalNonNegative(selected[..|selected| - 1]);
    }
  }

  /** The total splits around any row. */
  lemma TotalAround(selected: seq<Item>, k: nat)
    requires k < |selected|
    ensures Total(selected) == Total(selected[..k]) + selected[k].product.price * selected[k].quantity + Total(selected[k + 1..])
  {
    var before, row, after := selected[..k], selected[k], selected[k + 1..];
    assert selected == before + [row] + after;
    TotalAppend(before + [row], after);
    TotalAppend(before, [row]);
    assert [row][..0] == [];
  }

  /** With unique ids, no row other than row `k` carries the id of row `k`. */
  lemma OnlyRowWithId(selected: seq<Item>, k: nat)
    requires UniqueIds(selected) && k < |selected|
    ensures !IsSelected(selected[..k], selected[k].product.id)
    ensures !IsSelected(selected[k + 1..], selected[k].product.id)
  {
    var id := selected[k].product.id;
    forall i | 0 <= i < k ensures selected[..k][i].product.id != id {
      assert selected[..k][i] == selected[i];
    }
    var after := selected[k + 1..];
    forall i | 0 <= i < |after| ensures after[i].product.id != id {
      assert after[i] == selected[k + 1 + i];
    }
  }

  /** Dropping the only row with `id` leaves the rows before and after it. */
  lemma WithoutSingleRow(before: seq<Item>, row: Item, after: seq<Item>, id: int)
    requires !IsSelected(before, id) && !IsSelected(after, id) && row.product.id == id
    ensures Without(before + [row] + after, id) == before + after
  {
    WithoutAppend(before + [row], after, id);
    WithoutAppend(before, [row], id);
    WithoutAbsent(before, id);
    WithoutAbsent(after, id);
    assert [row][1..] == [];
    assert Without([row], id) == [];
  }

  /** With unique ids, dropping the product of row `k` leaves exactly the rows before and after it. */
  lemma WithoutUniqueRow(selected: seq<Item>, k: nat)
    requires UniqueIds(selected) && k < |selected|
    ensures Without(selected, selected[k].product.id) == selected[..k] + selected[k + 1..]
  {
    OnlyRowWithId(selected, k);
    assert selected == selected[..k] + [selected[k]] + selected[k + 1..];
    WithoutSingleRow(selected[..k], selected[k], selected[k + 1..], selected[k].product.id);
  }

  /** Selecting a product adds one unit of its price to the total. */
  lemma TotalAfterSelect(selected: seq<Item>, p: Product)
    requires !IsSelected(selected, p.id)
    ensures Total(Toggle(selected, p)) == Total(selected) + p.price
  {
    TotalAppend(selected, [Item(p, 1)]);
    assert [Item(p, 1)][..0] == [];
  }

  /** With unique ids, deselecting the product of row `k` removes that row's subtotal from the total. */
  lemma TotalAfterDeselect(selected: seq<Item>, k: nat)
    requires UniqueIds(selected) && k < |selected|
    ensures var row := selected[k];
      Total(Toggle(selected, row.product)) == Total(selected) - row.product.price * row.quantity
  {
    assert IsSelected(selected, selected[k].product.id);
    WithoutUniqueRow(selected, k);
    TotalAround(selected, k);
    TotalAppend(selected[..k], selected[k + 1..]);
  }

  /** Replacing one row changes the total by the difference of the two subtotals. */
  lemma TotalReplaceRow(s: seq<Item>, r: seq<Item>, k: nat)
    requires |r| == |s| && k < |s|
    requires r[..k] == s[..k] && r[k + 1..] == s[k + 1..]
    ensures Total(r) - Total(s) == r[k].product.price * r[k].quantity - s[k].product.price * s[k].quantity
  {
    TotalAround(s, k);
    TotalAround(r, k);
  }

  /** With unique ids, editing the quantity of row `k` leaves every other row as it was. */
  lemma SetQuantityOutsideRow(selected: seq<Item>, k: nat, text: string)
    requires UniqueIds(selected) && k < |selected|
    ensures var r := SetQuantity(selected, selected[k].product.id, text);
      r[..k] == selected[..k] && r[k + 1..] == selected[k + 1..]
  {
    var id := selected[k].product.id;
    var r := SetQuantity(selected, id, text);
    assert r[..k] == selected[..k] by {
      forall i | 0 <= i < k ensures r[i] == selected[i] {
        assert selected[i].product.id != id;
      }
    }
    assert r[k + 1..] == selected[k + 1..] by {
      forall i | k < i < |r| ensures r[i] == selected[i] {
        assert selected[i].product.id != id;
      }
    }
  }

  /** Editing the quantity of row `k` replaces that row's subtotal in the total and changes nothing else in it. */
  lemma TotalAfterSetQuantity(selected: seq<Item>, k: nat, text: string)
    requires UniqueIds(selected) && k < |selected|
    ensures var row := selected[k];
      Total(SetQuantity(selected, row.product.id, text))
        == Total(selected) - row.product.price * row.quantity + row.product.price * Quantity(text)
  {
    var r := SetQuantity(selected, selected[k].product.id, text);
    SetQuantityOutsideRow(selected, k, text);
    assert r[k] == Item(selected[k].product, Quantity(text));
    TotalReplaceRow(selected, r, k);
  }
}
