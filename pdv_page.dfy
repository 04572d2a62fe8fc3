/** The point-of-sale page: a cart of sweets with quantities, its total,
    and the two modals of the sale flow (payment QR code, then receipt). */
module PdvPage {

  /** The fields of a sweet the cart uses. */
  datatype Sweet = Sweet(id: string, name: string, price: real)

  /** `{...sweet, quantity}`. */
  datatype Line = Line(sweet: Sweet, quantity: int)

  predicate InCart(cart: seq<Line>, id: string) {
    exists k :: 0 <= k < |cart| && cart[k].sweet.id == id
  }

  /** Each sweet has at most one line, and every quantity is at least 1. */
  predicate WellFormed(cart: seq<Line>) {
    && (forall i, j :: 0 <= i < j < |cart| ==> cart[i].sweet.id != cart[j].sweet.id)
    && (forall k :: 0 <= k < |cart| ==> cart[k].quantity >= 1)
  }

  /** `cart.map(item => item.id === id ? {...item, quantity: item.quantity + 1} : item)`. */
  function Incremented(cart: seq<Line>, id: string): (r: seq<Line>)
    ensures |r| == |cart|
    ensures forall k :: 0 <= k < |cart| ==>
      r[k] == if cart[k].sweet.id == id then cart[k].(quantity := cart[k].quantity + 1) else cart[k]
  {
    if cart == [] then []
    else
      var line := if cart[0].sweet.id == id then cart[0].(quantity := cart[0].quantity + 1) else cart[0];
      [line] + Incremented(cart[1..], id)
  }

  /** `handleAddToCart(sweet)`: one more of a sweet already in the cart,
      else a new line with quantity 1 at the end. */
  function AddToCart(cart: seq<Line>, sweet: Sweet): seq<Line> {
    if InCart(cart, sweet.id) then Incremented(cart, sweet.id) else cart + [Line(sweet, 1)]
  }

  /** `cart.map(item => item.id === id ? (q > 0 ? {...item, quantity: q} : null) : item).filter(Boolean)`
      with `q = item.quantity + amount`. */
  function Updated(cart: seq<Line>, id: string, amount: int): (r: seq<Line>)
    ensures |r| <= |cart|
  {
    if cart == [] then []
    else
      var rest := Updated(cart[1..], id, amount);
      if cart[0].sweet.id != id then [cart[0]] + rest
      else if cart[0].quantity + amount > 0 then [cart[0].(quantity := cart[0].quantity + amount)] + rest
      else rest
  }

  /** `cart.reduce((total, item) => total + item.price * item.quantity, 0)`,
      in exact arithmetic, where the order of the additions does not
      matter. */
  function Total(cart: seq<Line>): real {
    if cart == [] then 0.0 else cart[0].sweet.price * cart[0].quantity as real + Total(cart[1..])
  }

  /** The page's state. */
  class Page {
    var cart: seq<Line>
    var isQrModalOpen: bool
    var isReceiptModalOpen: bool

    predicate Valid()
      reads this
    {
      WellFormed(cart)
    }

    constructor()
      ensures Valid() && cart == [] && !isQrModalOpen && !isReceiptModalOpen
    {
      cart := [];
      isQrModalOpen := false;
      isReceiptModalOpen := false;
    }

    /** `orderTotal`. */
    function OrderTotal(): real
      reads this
    {
      Total(cart)
    }

    method HandleAddToCart(sweet: Sweet)
      requires Valid()
      modifies this
      ensures Valid() && cart == AddToCart(old(cart), sweet)
      ensures isQrModalOpen == old(isQrModalOpen) && isReceiptModalOpen == old(isReceiptModalOpen)
    {
      AddKeepsWellFormed(cart, sweet);
      cart := AddToCart(cart, sweet);
    }

    method HandleUpdateQuantity(sweetId: string, amount: int)
      requires Valid()
      modifies this
      ensures Valid() && cart == Updated(old(cart), sweetId, amount)
      ensures isQrModalOpen == old(isQrModalOpen) && isReceiptModalOpen == old(isReceiptModalOpen)
    {
      UpdateKeepsWellFormed(cart, sweetId, amount);
      cart := Updated(cart, sweetId, amount);
    }

    /** `handleInitiateSale`: an empty cart only raises an alert. */
    method HandleInitiateSale()
      modifies this
      ensures cart == old(cart) && isReceiptModalOpen == old(isReceiptModalOpen)
      ensures isQrModalOpen == (old(isQrModalOpen) || old(cart) != [])
    {
      if cart == [] {
        return;
      }
      isQrModalOpen := true;
    }

    /** `handleConfirmSale`: from the QR code to the receipt. */
    method HandleConfirmSale()
      modifies this
      ensures cart == old(cart) && !isQrModalOpen && isReceiptModalOpen
    {
      isQrModalOpen := false;
      isReceiptModalOpen := true;
    }

    /** `handleFinalizeAndReceipt(shouldGenerateReceipt)`: the alert aside,
      the receipt closes and the cart empties. */
    method HandleFinalizeAndReceipt(shouldGenerateReceipt: bool)
      requires Valid()
      modifies this
      ensures Valid() && cart == [] && !isReceiptModalOpen && isQrModalOpen == old(isQrModalOpen)
    {
      isReceiptModalOpen := false;
      cart := [];
    }

    /** `handleCancelSale`: both modals close and the cart stays. */
    method HandleCancelSale()
      modifies this
      ensures cart == old(cart) && !isQrModalOpen && !isReceiptModalOpen
    {
      isQrModalOpen := false;
      isReceiptModalOpen := false;
    }
  }

  // ------------------------------------------------------------ properties

  /** Adding keeps one line per sweet and every quantity at least 1. */
  lemma AddKeepsWellFormed(cart: seq<Line>, sweet: Sweet)
    requires WellFormed(cart)
    ensures WellFormed(AddToCart(cart, sweet))
  {
    if !InCart(cart, sweet.id) {
      var r := cart + [Line(sweet, 1)];
      forall i, j | 0 <= i < j < |r| ensures r[i].sweet.id != r[j].sweet.id {
        if j == |cart| {
          assert r[i] == cart[i];
        }
      }
    }
  }

  /** Adding a sweet already in the cart adds one to its line and changes no
      other line; adding a new one appends a line with quantity 1. */
  lemma AddToCartEffect(cart: seq<Line>, sweet: Sweet)
    requires WellFormed(cart)
    ensures InCart(cart, sweet.id) ==>
      var r := AddToCart(cart, sweet);
      |r| == |cart| && forall k :: 0 <= k < |cart| ==>
        r[k] == (if cart[k].sweet.id == sweet.id then cart[k].(quantity := cart[k].quantity + 1) else cart[k])
    ensures !InCart(cart, sweet.id) ==> AddToCart(cart, sweet) == cart + [Line(sweet, 1)]
  {
  }

  /** Adding a new sweet raises the total by its price. */
  lemma AddNewTotal(cart: seq<Line>, sweet: Sweet)
    requires !InCart(cart, sweet.id)
    ensures Total(AddToCart(cart, sweet)) == Total(cart) + sweet.price
  {
    TotalAppend(cart, [Line(sweet, 1)]);
    assert Total([Line(sweet, 1)]) == sweet.price * 1.0 + Total([]);
  }

  /** Adding a sweet already in the cart raises the total by the price of
      its line (which is the price it had when first added). */
  lemma AddExistingTotal(cart: seq<Line>, sweet: Sweet, k: nat)
    requires WellFormed(cart) && k < |cart| && cart[k].sweet.id == sweet.id
    ensures Total(AddToCart(cart, sweet)) == Total(cart) + cart[k].sweet.price
  {
    assert InCart(cart, sweet.id);
    IncrementedTotal(cart, k);
  }

  /** The total of two carts one after the other is the sum of their totals. */
  lemma {:induction false} TotalAppend(a: seq<Line>, b: seq<Line>)
    ensures Total(a + b) == Total(a) + Total(b)
  {
    if a == [] {
      assert a + b == b;
    } else {
      TotalAppend(a[1..], b);
      assert (a + b)[1..] == a[1..] + b;
    }
  }

  /** Raising line `k` by one, in a cart where no other line has its id,
      raises the total by that line's price. */
  lemma {:induction false} IncrementedTotal(cart: seq<Line>, k: nat)
    requires k < |cart| && WellFormed(cart)
    ensures Total(Incremented(cart, cart[k].sweet.id)) == Total(cart) + cart[k].sweet.price
    decreases |cart|
  {
    var id := cart[k].sweet.id;
    var r := Incremented(cart, id);
    assert r[1..] == Incremented(cart[1..], id);
    assert Total(r) == r[0].sweet.price * r[0].quantity as real + Total(r[1..]);
    if k == 0 {
      forall j | 0 <= j < |cart[1..]| ensures cart[1..][j].sweet.id != id {
        assert cart[1..][j] == cart[j + 1];
      }
      UnchangedTotal(cart[1..], id);
      var p, q := cart[0].sweet.price, cart[0].quantity as real;
      assert p * (q + 1.0) == p * q + p;
    } else {
      assert cart[1..][k - 1] == cart[k];
      WellFormedTail(cart);
      IncrementedTotal(cart[1..], k - 1);
      assert cart[0].sweet.id != id;
    }
  }

  /** Dropping the first line keeps a cart well formed. */
  lemma WellFormedTail(cart: seq<Line>)
    requires cart != [] && WellFormed(cart)
    ensures WellFormed(cart[1..])
  {
    forall i, j | 0 <= i < j < |cart| - 1 ensures cart[1..][i].sweet.id != cart[1..][j].sweet.id {
      assert cart[1..][i] == cart[i + 1] && cart[1..][j] == cart[j + 1];
    }
  }

  /** A cart with no line of the id is left as it is. */
  lemma UnchangedTotal(cart: seq<Line>, id: string)
    requires forall j :: 0 <= j < |cart| ==> cart[j].sweet.id != id
    ensures Incremented(cart, id) == cart
  {
  }

  /** Updating keeps one line per sweet and every quantity at least 1. */
  lemma {:induction false} UpdateKeepsWellFormed(cart: seq<Line>, id: string, amount: int)
    requires WellFormed(cart)
    ensures WellFormed(Updated(cart, id, amount))
    ensures forall k :: 0 <= k < |Updated(cart, id, amount)| ==> InCart(cart, Updated(cart, id, amount)[k].sweet.id)
  {
    if cart != [] {
      var rest := Updated(cart[1..], id, amount);
      UpdateKeepsWellFormed(cart[1..], id, amount);
      forall k | 0 <= k < |rest| ensures rest[k].sweet.id != cart[0].sweet.id && InCart(cart, rest[k].sweet.id) {
        var j :| 0 <= j < |cart[1..]| && cart[1..][j].sweet.id == rest[k].sweet.id;
        assert cart[j + 1] == cart[1..][j];
      }
      var r := Updated(cart, id, amount);
      if r != rest {
        assert r[1..] == rest;
        forall k | 0 <= k < |r| ensures InCart(cart, r[k].sweet.id) {
          if k == 0 {
            assert r[0].sweet.id == cart[0].sweet.id;
          } else {
            assert r[k] == rest[k - 1];
          }
        }
      }
    }
  }

  /** Updating a sweet that is not in the cart changes nothing; updating
      line `k` keeps every other line, in order, and either drops line `k`
      (new quantity 0 or less) or sets its new quantity. */
  lemma {:induction false} UpdatedEffect(cart: seq<Line>, k: nat, amount: int)
    requires WellFormed(cart) && k < |cart|
    ensures var line := cart[k];
      Updated(cart, line.sweet.id, amount)
        == cart[..k]
           + (if line.quantity + amount > 0 then [line.(quantity := line.quantity + amount)] else [])
           + cart[k + 1..]
    decreases |cart|
  {
    var id := cart[k].sweet.id;
    if k == 0 {
      UpdatedAbsent(cart[1..], id, amount);
      assert cart[..0] == [];
    } else {
      assert cart[1..][k - 1] == cart[k];
      UpdatedEffect(cart[1..], k - 1, amount);
      assert cart[0].sweet.id != id;
      assert cart[1..][..k - 1] == cart[1..k];
      assert cart[1..][k..] == cart[k + 1..];
      assert [cart[0]] + cart[1..k] == cart[..k];
    }
  }

  /** A sweet with no line is not touched by an update. */
  lemma {:induction false} UpdatedAbsent(cart: seq<Line>, id: string, amount: int)
    requires forall j :: 0 <= j < |cart| ==> cart[j].sweet.id != id
    ensures Updated(cart, id, amount) == cart
  {
    if cart != [] {
      UpdatedAbsent(cart[1..], id, amount);
      assert [cart[0]] + cart[1..] == cart;
    }
  }
}
