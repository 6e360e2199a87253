/**
 The stock ledger: time-limited holds per product and cart against the stock of physical products.

 Every service call is one atomic step and the clock moves between calls. Quantities and stock levels
 have passed the request validation (at least 1, at least 0), so a step that fails it changes nothing.
 Released and confirmed holds are deleted rows.
 */
module StockLedger {
  import opened Common

  type ProductId = string
  type CartId = string

  datatype Product = Product(physical: bool, stock: Option<int>)
  datatype Hold = Hold(productId: ProductId, cartId: CartId, quantity: int, expiresAt: int)

  /** `ttl` is the configured reservation time. */
  datatype State = State(products: map<ProductId, Product>, holds: seq<Hold>, now: int, ttl: int)

  datatype Step =
    | Reserve(productId: ProductId, cartId: CartId, quantity: int)
    | ReleaseCart(cartId: CartId)
    | Confirm(cartId: CartId)
    | Cleanup
    | UpdateStock(productId: ProductId, stock: int)
    | Tick(ms: nat)

  function StockOf(product: Product): int {
    if product.stock.Some? then product.stock.value else 0
  }

  /** What a hold counts towards the reserved quantity of p: nothing once it has expired. */
  function Weight(h: Hold, p: ProductId, now: int): int {
    if h.productId == p && h.expiresAt > now then h.quantity else 0
  }

  /** The reserved quantity of p: the sum over its unexpired holds. */
  function Held(holds: seq<Hold>, p: ProductId, now: int): int {
    if holds == [] then 0 else Held(holds[..|holds| - 1], p, now) + Weight(holds[|holds| - 1], p, now)
  }

  function Find(holds: seq<Hold>, p: ProductId, c: CartId): (i: Option<nat>)
    ensures i.Some? ==> i.value < |holds| && holds[i.value].productId == p && holds[i.value].cartId == c
    ensures i.None? ==> forall k :: 0 <= k < |holds| ==> holds[k].productId != p || holds[k].cartId != c
  {
    if holds == [] then None
    else if holds[|holds| - 1].productId == p && holds[|holds| - 1].cartId == c then Some(|holds| - 1)
    else Find(holds[..|holds| - 1], p, c)
  }

  function OfCart(holds: seq<Hold>, c: CartId): seq<Hold> {
    if holds == [] then []
    else OfCart(holds[..|holds| - 1], c) + if holds[|holds| - 1].cartId == c then [holds[|holds| - 1]] else []
  }

  function WithoutCart(holds: seq<Hold>, c: CartId): seq<Hold> {
    if holds == [] then []
    else WithoutCart(holds[..|holds| - 1], c) + if holds[|holds| - 1].cartId == c then [] else [holds[|holds| - 1]]
  }

  /** The cleanup keeps the holds that are not past their expiry. */
  function Unexpired(holds: seq<Hold>, now: int): seq<Hold> {
    if holds == [] then []
    else Unexpired(holds[..|holds| - 1], now) + if holds[|holds| - 1].expiresAt < now then [] else [holds[|holds| - 1]]
  }

  function Deduct(products: map<ProductId, Product>, h: Hold): map<ProductId, Product> {
    if h.productId in products && products[h.productId].physical then
      products[h.productId := products[h.productId].(stock := Some(Max(0, StockOf(products[h.productId]) - h.quantity)))]
    else products
  }

  /** Every hold deducted once, in order, each from the stock the previous one left. */
  function DeductAll(products: map<ProductId, Product>, holds: seq<Hold>): map<ProductId, Product> {
    if holds == [] then products else Deduct(DeductAll(products, holds[..|holds| - 1]), holds[|holds| - 1])
  }

  predicate CanReserve(s: State, p: ProductId, q: int) {
    p in s.products && s.products[p].physical && q >= 1
  }

  function Apply(s: State, step: Step): State {
    match step
    case Reserve(p, c, q) =>
      if !CanReserve(s, p, q) then s
      else
        var existing := Find(s.holds, p, c);
        if existing.Some? then
          s.(holds := s.holds[existing.value := Hold(p, c, q, s.now + s.ttl)])
        else if StockOf(s.products[p]) - Held(s.holds, p, s.now) < q then s
        else s.(holds := s.holds + [Hold(p, c, q, s.now + s.ttl)])
    case ReleaseCart(c) => s.(holds := WithoutCart(s.holds, c))
    case Confirm(c) =>
      s.(products := DeductAll(s.products, OfCart(s.holds, c)), holds := WithoutCart(s.holds, c))
    case Cleanup => s.(holds := Unexpired(s.holds, s.now))
    case UpdateStock(p, n) =>
      if p in s.products && s.products[p].physical && n >= 0 then
        s.(products := s.products[p := s.products[p].(stock := Some(n))])
      else s
    case Tick(ms) => s.(now := s.now + ms)
  }

  function Exec(s: State, steps: seq<Step>): State {
    if steps == [] then s else Apply(Exec(s, steps[..|steps| - 1]), steps[|steps| - 1])
  }

  // ------------------------------------------------------------------------------------------
  // Invariants and the no-oversell condition
  // ------------------------------------------------------------------------------------------

  predicate HoldOk(h: Hold, products: map<ProductId, Product>) {
    h.quantity >= 1 && h.productId in products && products[h.productId].physical
  }

  /** No two holds of one cart are for the same product. */
  predicate UniqueHolds(holds: seq<Hold>) {
    forall i, j :: 0 <= i < j < |holds| ==> holds[i].productId != holds[j].productId || holds[i].cartId != holds[j].cartId
  }

  predicate Inv(s: State) {
    s.ttl > 0 && UniqueHolds(s.holds) && forall k :: 0 <= k < |s.holds| ==> HoldOk(s.holds[k], s.products)
  }

  predicate NoOversell(s: State) {
    forall p :: p in s.products && s.products[p].physical ==> Held(s.holds, p, s.now) <= StockOf(s.products[p])
  }

  /** What the caller of a step has to see to for held quantities to stay covered by stock. */
  predicate Guard(s: State, step: Step) {
    match step
    case Reserve(p, c, q) =>
      CanReserve(s, p, q) && Find(s.holds, p, c).Some?
      ==> q <= StockOf(s.products[p]) - Held(s.holds, p, s.now) + Weight(s.holds[Find(s.holds, p, c).value], p, s.now)
    case Confirm(c) =>
      forall k :: 0 <= k < |s.holds| && s.holds[k].cartId == c && s.holds[k].expiresAt <= s.now
                  && s.holds[k].productId in s.products
                  ==> Held(s.holds, s.holds[k].productId, s.now) == 0
                      || s.holds[k].quantity
                         <= StockOf(s.products[s.holds[k].productId]) - Held(s.holds, s.holds[k].productId, s.now)
    case UpdateStock(p, n) => n >= 0 ==> Held(s.holds, p, s.now) <= n
    case _ => true
  }

  /** The everyday discipline: refresh only live holds and only downwards, confirm before expiry. */
  predicate Careful(s: State, step: Step) {
    match step
    case Reserve(p, c, q) =>
      Find(s.holds, p, c).Some?
      ==> s.holds[Find(s.holds, p, c).value].expiresAt > s.now && q <= s.holds[Find(s.holds, p, c).value].quantity
    case Confirm(c) =>
      forall k :: 0 <= k < |s.holds| && s.holds[k].cartId == c ==> s.holds[k].expiresAt > s.now
    case UpdateStock(p, n) => Held(s.holds, p, s.now) <= n
    case _ => true
  }

  // ------------------------------------------------------------------------------------------
  // Sums over holds
  // ------------------------------------------------------------------------------------------

  lemma {:induction false} HeldUpdate(holds: seq<Hold>, i: nat, h: Hold, p: ProductId, now: int)
    requires i < |holds|
    ensures Held(holds[i := h], p, now) == Held(holds, p, now) - Weight(holds[i], p, now) + Weight(h, p, now)
  {
    var n := |holds| - 1;
    if i < n {
      HeldUpdate(holds[..n], i, h, p, now);
      assert holds[i := h][..n] == holds[..n][i := h];
    } else {
      assert holds[i := h][..n] == holds[..n];
    }
  }

  /** An unexpired hold counts with its quantity towards its product; an expired one, or another's, does not. */
  lemma HeldAppend(holds: seq<Hold>, h: Hold, p: ProductId, now: int)
    ensures Held([], p, now) == 0
    ensures Held(holds + [h], p, now)
            == Held(holds, p, now) + if h.productId == p && h.expiresAt > now then h.quantity else 0
  {
    assert (holds + [h])[..|holds|] == holds;
  }

  lemma {:induction false} HeldSplit(holds: seq<Hold>, c: CartId, p: ProductId, now: int)
    ensures Held(WithoutCart(holds, c), p, now) + Held(OfCart(holds, c), p, now) == Held(holds, p, now)
  {
    if holds != [] {
      var n := |holds| - 1;
      var without, of := WithoutCart(holds[..n], c), OfCart(holds[..n], c);
      HeldSplit(holds[..n], c, p, now);
      assert (without + [holds[n]])[..|without|] == without;
      assert (of + [holds[n]])[..|of|] == of;
      assert without + [] == without && of + [] == of;
    }
  }

  lemma {:induction false} HeldUnexpired(holds: seq<Hold>, p: ProductId, now: int)
    ensures Held(Unexpired(holds, now), p, now) == Held(holds, p, now)
  {
    if holds != [] {
      var n := |holds| - 1;
      var kept := Unexpired(holds[..n], now);
      HeldUnexpired(holds[..n], p, now);
      assert (kept + [holds[n]])[..|kept|] == kept;
      assert kept + [] == kept;
    }
  }

  lemma {:induction false} HeldNonNegative(holds: seq<Hold>, p: ProductId, now: int)
    requires forall k :: 0 <= k < |holds| ==> holds[k].quantity >= 1
    ensures 0 <= Held(holds, p, now)
    ensures forall k :: 0 <= k < |holds| ==> Weight(holds[k], p, now) <= Held(holds, p, now)
  {
    if holds != [] {
      var n := |holds| - 1;
      HeldNonNegative(holds[..n], p, now);
      forall k | 0 <= k < |holds|
        ensures Weight(holds[k], p, now) <= Held(holds, p, now)
      {
        if k < n {
          assert holds[..n][k] == holds[k];
        }
      }
    }
  }

  /** Time only lets holds expire. */
  lemma {:induction false} HeldFades(holds: seq<Hold>, p: ProductId, now: int, later: int)
    requires forall k :: 0 <= k < |holds| ==> holds[k].quantity >= 1
    requires now <= later
    ensures Held(holds, p, later) <= Held(holds, p, now)
  {
    if holds != [] {
      HeldFades(holds[..|holds| - 1], p, now, later);
    }
  }

  lemma {:induction false} InCart(holds: seq<Hold>, c: CartId, h: Hold)
    ensures h in OfCart(holds, c) <==> h in holds && h.cartId == c
    ensures h in WithoutCart(holds, c) <==> h in holds && h.cartId != c
  {
    if holds != [] {
      var n := |holds| - 1;
      InCart(holds[..n], c, h);
      assert holds == holds[..n] + [holds[n]];
      assert h in holds <==> h in holds[..n] || h == holds[n];
    }
  }

  lemma AppendUnique(holds: seq<Hold>, h: Hold)
    requires UniqueHolds(holds)
    requires forall k :: 0 <= k < |holds| ==> holds[k].productId != h.productId || holds[k].cartId != h.cartId
    ensures UniqueHolds(holds + [h])
  {
  }

  lemma {:induction false} CartHoldsUnique(holds: seq<Hold>, c: CartId)
    requires UniqueHolds(holds)
    ensures UniqueHolds(OfCart(holds, c)) && UniqueHolds(WithoutCart(holds, c))
  {
    if holds != [] {
      var n := |holds| - 1;
      var front, h := holds[..n], holds[n];
      var of, without := OfCart(front, c), WithoutCart(front, c);
      CartHoldsUnique(front, c);
      assert OfCart(holds, c) == if h.cartId == c then of + [h] else of;
      assert WithoutCart(holds, c) == if h.cartId == c then without else without + [h];
      hide OfCart, WithoutCart;
      forall x | x in front
        ensures x.productId != h.productId || x.cartId != h.cartId
      {
        var k :| 0 <= k < n && front[k] == x;
        assert holds[k] == x;
      }
      hide UniqueHolds;
      forall k | 0 <= k < |of| ensures of[k] in front { InCart(front, c, of[k]); }
      forall k | 0 <= k < |without| ensures without[k] in front { InCart(front, c, without[k]); }
      if h.cartId == c {
        AppendUnique(of, h);
      } else {
        AppendUnique(without, h);
      }
    }
  }

  /** A cart's holds and the others: which rows they are, still without duplicates. */
  lemma OfCartElements(holds: seq<Hold>, c: CartId)
    ensures forall h :: h in OfCart(holds, c) <==> h in holds && h.cartId == c
    ensures forall h :: h in WithoutCart(holds, c) <==> h in holds && h.cartId != c
    ensures UniqueHolds(holds) ==> UniqueHolds(OfCart(holds, c)) && UniqueHolds(WithoutCart(holds, c))
  {
    hide OfCart, WithoutCart;
    forall h { InCart(holds, c, h); }
    if UniqueHolds(holds) {
      CartHoldsUnique(holds, c);
    }
  }

  lemma {:induction false} InUnexpired(holds: seq<Hold>, now: int, h: Hold)
    ensures h in Unexpired(holds, now) <==> h in holds && h.expiresAt >= now
  {
    if holds != [] {
      var n := |holds| - 1;
      InUnexpired(holds[..n], now, h);
      assert holds == holds[..n] + [holds[n]];
    }
  }

  lemma {:induction false} UnexpiredUnique(holds: seq<Hold>, now: int)
    requires UniqueHolds(holds)
    ensures UniqueHolds(Unexpired(holds, now))
  {
    if holds != [] {
      var n := |holds| - 1;
      var kept := Unexpired(holds[..n], now);
      UnexpiredUnique(holds[..n], now);
      forall k | 0 <= k < |kept|
        ensures kept[k].productId != holds[n].productId || kept[k].cartId != holds[n].cartId
      {
        InUnexpired(holds[..n], now, kept[k]);
        var j :| 0 <= j < n && holds[..n][j] == kept[k];
        assert holds[j] == kept[k];
      }
      hide Unexpired;
      AppendUnique(kept, holds[n]);
    }
  }

  lemma UnexpiredElements(holds: seq<Hold>, now: int)
    ensures forall h :: h in Unexpired(holds, now) <==> h in holds && h.expiresAt >= now
    ensures UniqueHolds(holds) ==> UniqueHolds(Unexpired(holds, now))
  {
    hide Unexpired, UniqueHolds;
    forall h { InUnexpired(holds, now, h); }
    if UniqueHolds(holds) {
      UnexpiredUnique(holds, now);
    }
  }

  // ------------------------------------------------------------------------------------------
  // Confirming a cart: each hold deducted exactly once
  // ------------------------------------------------------------------------------------------

  /** The holds are for pairwise different products. */
  predicate DistinctProducts(holds: seq<Hold>) {
    forall i, j :: 0 <= i < j < |holds| ==> holds[i].productId != holds[j].productId
  }

  lemma CartHoldsDistinct(holds: seq<Hold>, c: CartId)
    requires UniqueHolds(holds)
    ensures DistinctProducts(OfCart(holds, c))
  {
    OfCartElements(holds, c);
    var of := OfCart(holds, c);
    forall i, j | 0 <= i < j < |of|
      ensures of[i].productId != of[j].productId
    {
      assert of[i] in of && of[j] in of;
    }
  }

  /** Products without a hold keep their stock; a product with a hold loses that quantity, down to zero. */
  lemma {:induction false} DeductAllAt(products: map<ProductId, Product>, holds: seq<Hold>, p: ProductId)
    requires DistinctProducts(holds)
    ensures DeductAll(products, holds).Keys == products.Keys
    ensures p in products ==> DeductAll(products, holds)[p].physical == products[p].physical
    ensures p in products && (forall k :: 0 <= k < |holds| ==> holds[k].productId != p)
            ==> DeductAll(products, holds)[p] == products[p]
    ensures forall k :: 0 <= k < |holds| && holds[k].productId == p && p in products && products[p].physical
                        ==> StockOf(DeductAll(products, holds)[p]) == Max(0, StockOf(products[p]) - holds[k].quantity)
  {
    if holds != [] {
      var n := |holds| - 1;
      var before := holds[..n];
      DeductAllAt(products, before, p);
      DeductAllAt(products, before, holds[n].productId);
      forall k | 0 <= k < |holds| && holds[k].productId == p && p in products && products[p].physical
        ensures StockOf(DeductAll(products, holds)[p]) == Max(0, StockOf(products[p]) - holds[k].quantity)
      {
        if k < n {
          assert before[k].productId == p && holds[n].productId != p;
        } else {
          assert forall m :: 0 <= m < n ==> before[m].productId != p;
        }
      }
    }
  }

  /** The reserved quantity of a cart's holds for p is its one live hold for p. */
  lemma {:induction false} HeldOfDistinct(holds: seq<Hold>, p: ProductId, now: int)
    requires DistinctProducts(holds)
    ensures (forall k :: 0 <= k < |holds| ==> holds[k].productId != p) ==> Held(holds, p, now) == 0
    ensures forall k :: 0 <= k < |holds| && holds[k].productId == p ==> Held(holds, p, now) == Weight(holds[k], p, now)
  {
    if holds != [] {
      var n := |holds| - 1;
      HeldOfDistinct(holds[..n], p, now);
      forall k | 0 <= k < |holds| && holds[k].productId == p
        ensures Held(holds, p, now) == Weight(holds[k], p, now)
      {
        if k < n {
          assert holds[..n][k].productId == p;
        }
      }
    }
  }

  // ------------------------------------------------------------------------------------------
  // Each step, exactly
  // ------------------------------------------------------------------------------------------

  lemma StepKeepsInv(s: State, step: Step)
    requires Inv(s)
    ensures Inv(Apply(s, step))
  {
    match step
    case ReleaseCart(c) => OfCartElements(s.holds, c); InvFromSubset(s, WithoutCart(s.holds, c));
    case Confirm(c) =>
      OfCartElements(s.holds, c);
      InvFromSubset(s, WithoutCart(s.holds, c));
      CartHoldsDistinct(s.holds, c);
      forall p | p in s.products
        ensures p in Apply(s, step).products && Apply(s, step).products[p].physical == s.products[p].physical
      {
        DeductAllAt(s.products, OfCart(s.holds, c), p);
      }
    case Cleanup => UnexpiredElements(s.holds, s.now); InvFromSubset(s, Unexpired(s.holds, s.now));
    case _ =>
  }

  lemma InvFromSubset(s: State, holds: seq<Hold>)
    requires Inv(s) && UniqueHolds(holds) && forall h :: h in holds ==> h in s.holds
    ensures Inv(s.(holds := holds))
  {
    forall k | 0 <= k < |holds|
      ensures HoldOk(holds[k], s.products)
    {
      assert holds[k] in holds;
    }
  }

  lemma ReserveExact(s: State, p: ProductId, c: CartId, q: int)
    requires Inv(s) && NoOversell(s)
    ensures NoOversell(Apply(s, Reserve(p, c, q))) <==> Guard(s, Reserve(p, c, q))
  {
    hide Held, Find;
    var t := Apply(s, Reserve(p, c, q));
    if CanReserve(s, p, q) {
      var existing := Find(s.holds, p, c);
      var h := Hold(p, c, q, s.now + s.ttl);
      forall r
        ensures Held(t.holds, r, s.now)
                == if existing.Some?
                   then Held(s.holds, r, s.now) - Weight(s.holds[existing.value], r, s.now) + Weight(h, r, s.now)
                   else if t == s then Held(s.holds, r, s.now) else Held(s.holds, r, s.now) + Weight(h, r, s.now)
      {
        if existing.Some? {
          HeldUpdate(s.holds, existing.value, h, r, s.now);
        } else {
          HeldAppend(s.holds, h, r, s.now);
        }
      }
      if NoOversell(t) {
        assert Held(t.holds, p, s.now) <= StockOf(t.products[p]);
      }
    }
  }

  /** Confirming changes stock and reserved quantity of one product like this. */
  lemma ConfirmAt(s: State, c: CartId, p: ProductId)
    requires Inv(s) && p in s.products && s.products[p].physical
    ensures var t := Apply(s, Confirm(c));
            && p in t.products && t.products[p].physical
            && (Find(s.holds, p, c).None? ==>
                  t.products[p] == s.products[p] && Held(t.holds, p, s.now) == Held(s.holds, p, s.now))
            && (Find(s.holds, p, c).Some? ==>
                  var h := s.holds[Find(s.holds, p, c).value];
                  && StockOf(t.products[p]) == Max(0, StockOf(s.products[p]) - h.quantity)
                  && Held(t.holds, p, s.now) == Held(s.holds, p, s.now) - Weight(h, p, s.now))
  {
    hide Held, DeductAll, OfCart, WithoutCart, Find;
    var of := OfCart(s.holds, c);
    CartHoldsDistinct(s.holds, c);
    OfCartElements(s.holds, c);
    DeductAllAt(s.products, of, p);
    HeldOfDistinct(of, p, s.now);
    HeldSplit(s.holds, c, p, s.now);
    if Find(s.holds, p, c).Some? {
      var h := s.holds[Find(s.holds, p, c).value];
      assert h in of;
      var k :| 0 <= k < |of| && of[k] == h;
    } else {
      forall k | 0 <= k < |of|
        ensures of[k].productId != p
      {
        assert of[k] in of;
      }
    }
  }

  lemma ConfirmExact(s: State, c: CartId)
    requires Inv(s) && NoOversell(s)
    ensures NoOversell(Apply(s, Confirm(c))) <==> Guard(s, Confirm(c))
  {
    hide Apply, Held, Find;
    var t := Apply(s, Confirm(c));
    ConfirmFrame(s, c);
    forall p | p in s.products && s.products[p].physical
      ensures Held(t.holds, p, s.now) <= StockOf(t.products[p])
              <==> Find(s.holds, p, c).None? || ConfirmOk(s, s.holds[Find(s.holds, p, c).value])
    {
      ConfirmAt(s, c, p);
      HeldNonNegative(s.holds, p, s.now);
    }
    if NoOversell(t) {
      forall k | 0 <= k < |s.holds| && s.holds[k].cartId == c && s.holds[k].productId in s.products
        ensures ConfirmOk(s, s.holds[k])
      {
        FindUnique(s.holds, k);
        assert HoldOk(s.holds[k], s.products);
      }
    } else {
      var p :| p in t.products && t.products[p].physical && Held(t.holds, p, t.now) > StockOf(t.products[p]);
      assert Find(s.holds, p, c).Some?;
    }
  }

  /** One hold's part of the confirm guard. */
  predicate ConfirmOk(s: State, h: Hold) {
    h.expiresAt > s.now || h.productId !in s.products
    || Held(s.holds, h.productId, s.now) == 0
    || h.quantity <= StockOf(s.products[h.productId]) - Held(s.holds, h.productId, s.now)
  }

  lemma FindUnique(holds: seq<Hold>, k: nat)
    requires UniqueHolds(holds) && k < |holds|
    ensures Find(holds, holds[k].productId, holds[k].cartId) == Some(k)
  {
    hide Find;
    var i := Find(holds, holds[k].productId, holds[k].cartId);
    assert i.Some?;
  }

  lemma ConfirmFrame(s: State, c: CartId)
    requires Inv(s)
    ensures Apply(s, Confirm(c)).now == s.now && Apply(s, Confirm(c)).products.Keys == s.products.Keys
    ensures forall p :: p in s.products ==> Apply(s, Confirm(c)).products[p].physical == s.products[p].physical
  {
    CartHoldsDistinct(s.holds, c);
    DeductAllAt(s.products, OfCart(s.holds, c), "");
    forall p | p in s.products
      ensures Apply(s, Confirm(c)).products[p].physical == s.products[p].physical
    {
      DeductAllAt(s.products, OfCart(s.holds, c), p);
    }
  }

  /** Fewer held of every product, the same stock: still covered. */
  lemma LessHeld(s: State, t: State)
    requires NoOversell(s) && t.products == s.products
    requires forall p :: Held(t.holds, p, t.now) <= Held(s.holds, p, s.now)
    ensures NoOversell(t)
  {
    hide Held;
  }

  lemma ReleaseCovers(s: State, c: CartId)
    requires Inv(s) && NoOversell(s)
    ensures NoOversell(Apply(s, ReleaseCart(c)))
  {
    hide Held, OfCart, WithoutCart, NoOversell;
    OfCartElements(s.holds, c);
    forall p
      ensures Held(WithoutCart(s.holds, c), p, s.now) <= Held(s.holds, p, s.now)
    {
      HeldSplit(s.holds, c, p, s.now);
      assert forall k :: 0 <= k < |OfCart(s.holds, c)| ==> OfCart(s.holds, c)[k] in s.holds;
      HeldNonNegative(OfCart(s.holds, c), p, s.now);
    }
    LessHeld(s, Apply(s, ReleaseCart(c)));
  }

  lemma CleanupCovers(s: State)
    requires NoOversell(s)
    ensures NoOversell(Apply(s, Cleanup))
  {
    hide Held, NoOversell, Unexpired;
    forall p { HeldUnexpired(s.holds, p, s.now); }
    LessHeld(s, Apply(s, Cleanup));
  }

  lemma TickCovers(s: State, ms: nat)
    requires Inv(s) && NoOversell(s)
    ensures NoOversell(Apply(s, Tick(ms)))
  {
    hide Held, NoOversell;
    forall p
      ensures Held(s.holds, p, s.now + ms) <= Held(s.holds, p, s.now)
    {
      HeldFades(s.holds, p, s.now, s.now + ms);
    }
    LessHeld(s, Apply(s, Tick(ms)));
  }

  lemma Unguarded(s: State, step: Step)
    requires step.ReleaseCart? || step.Cleanup? || step.Tick?
    ensures Guard(s, step)
  {
  }

  /**
   For every step from a state where held quantities are covered by stock: they stay covered if and only if
   the step's guard holds. Only a refresh, the confirmation of an expired hold and a stock update have one.
   */
  lemma StepExact(s: State, step: Step)
    requires Inv(s) && NoOversell(s)
    ensures NoOversell(Apply(s, step)) <==> Guard(s, step)
  {
    hide Apply, NoOversell, Guard, Inv;
    match step
    case Reserve(p, c, q) => ReserveExact(s, p, c, q);
    case Confirm(c) => ConfirmExact(s, c);
    case ReleaseCart(c) => ReleaseCovers(s, c); Unguarded(s, step);
    case Cleanup => CleanupCovers(s); Unguarded(s, step);
    case UpdateStock(p, n) => UpdateExact(s, p, n);
    case Tick(ms) => TickCovers(s, ms); Unguarded(s, step);
  }

  /** A product nobody may hold has nothing held. */
  lemma {:induction false} HeldNothing(holds: seq<Hold>, products: map<ProductId, Product>, p: ProductId, now: int)
    requires forall k :: 0 <= k < |holds| ==> HoldOk(holds[k], products)
    requires p !in products || !products[p].physical
    ensures Held(holds, p, now) == 0
  {
    if holds != [] {
      var n := |holds| - 1;
      assert HoldOk(holds[n], products);
      assert forall k :: 0 <= k < n ==> HoldOk(holds[k], products);
      HeldNothing(holds[..n], products, p, now);
    }
  }

  lemma UpdateExact(s: State, p: ProductId, n: int)
    requires Inv(s) && NoOversell(s)
    ensures NoOversell(Apply(s, UpdateStock(p, n))) <==> Guard(s, UpdateStock(p, n))
  {
    hide Held;
    var t := Apply(s, UpdateStock(p, n));
    if p in s.products && s.products[p].physical {
      if n >= 0 && NoOversell(t) {
        assert Held(t.holds, p, t.now) <= StockOf(t.products[p]);
      }
    } else {
      HeldNothing(s.holds, s.products, p, s.now);
    }
  }

  lemma CarefulIsGuarded(s: State, step: Step)
    requires Inv(s) && NoOversell(s) && Careful(s, step)
    ensures Guard(s, step)
  {
  }

  /** A careful confirmation deducts every hold in full: the clamp at zero never fires. */
  lemma ClampNeverFires(s: State, c: CartId, k: nat)
    requires Inv(s) && NoOversell(s) && Careful(s, Confirm(c))
    requires k < |s.holds| && s.holds[k].cartId == c
    ensures var p := s.holds[k].productId;
            p in Apply(s, Confirm(c)).products
            && StockOf(Apply(s, Confirm(c)).products[p]) == StockOf(s.products[p]) - s.holds[k].quantity >= 0
  {
    hide Apply, Held;
    var p := s.holds[k].productId;
    assert HoldOk(s.holds[k], s.products);
    FindUnique(s.holds, k);
    ConfirmAt(s, c, p);
    HeldNonNegative(s.holds, p, s.now);
    assert Weight(s.holds[k], p, s.now) == s.holds[k].quantity;
  }

  // ------------------------------------------------------------------------------------------
  // Whole runs
  // ------------------------------------------------------------------------------------------

  lemma {:induction false} AlwaysInv(s: State, steps: seq<Step>)
    requires Inv(s)
    ensures Inv(Exec(s, steps))
  {
    if steps != [] {
      AlwaysInv(s, steps[..|steps| - 1]);
      StepKeepsInv(Exec(s, steps[..|steps| - 1]), steps[|steps| - 1]);
    }
  }

  predicate NeverOversold(s: State, steps: seq<Step>) {
    forall k :: 0 <= k <= |steps| ==> NoOversell(Exec(s, steps[..k]))
  }

  predicate AlwaysGuarded(s: State, steps: seq<Step>) {
    forall k :: 0 <= k < |steps| ==> Guard(Exec(s, steps[..k]), steps[k])
  }

  predicate AlwaysCareful(s: State, steps: seq<Step>) {
    forall k :: 0 <= k < |steps| ==> Careful(Exec(s, steps[..k]), steps[k])
  }

  lemma PrefixStep(s: State, steps: seq<Step>, k: nat)
    requires k < |steps|
    ensures Exec(s, steps[..k + 1]) == Apply(Exec(s, steps[..k]), steps[k])
  {
    assert steps[..k + 1][..k] == steps[..k];
  }

  lemma {:induction false} GuardedRunIsSafe(s: State, steps: seq<Step>, k: nat)
    requires Inv(s) && NoOversell(s) && AlwaysGuarded(s, steps) && k <= |steps|
    ensures NoOversell(Exec(s, steps[..k]))
  {
    hide NoOversell, Guard, Apply;
    if k == 0 {
      assert steps[..0] == [];
    } else {
      GuardedRunIsSafe(s, steps, k - 1);
      PrefixStep(s, steps, k - 1);
      AlwaysInv(s, steps[..k - 1]);
      assert Guard(Exec(s, steps[..k - 1]), steps[k - 1]);
      StepExact(Exec(s, steps[..k - 1]), steps[k - 1]);
    }
  }

  /** A run never oversells if and only if every one of its steps is guarded. */
  lemma NeverOversoldExactly(s: State, steps: seq<Step>)
    requires Inv(s) && NoOversell(s)
    ensures NeverOversold(s, steps) <==> AlwaysGuarded(s, steps)
  {
    hide NoOversell, Guard, Apply, Exec;
    if AlwaysGuarded(s, steps) {
      forall k | 0 <= k <= |steps|
        ensures NoOversell(Exec(s, steps[..k]))
      {
        GuardedRunIsSafe(s, steps, k);
      }
    }
    if NeverOversold(s, steps) {
      forall k | 0 <= k < |steps|
        ensures Guard(Exec(s, steps[..k]), steps[k])
      {
        PrefixStep(s, steps, k);
        AlwaysInv(s, steps[..k]);
        assert NoOversell(Exec(s, steps[..k])) && NoOversell(Exec(s, steps[..k + 1]));
        StepExact(Exec(s, steps[..k]), steps[k]);
      }
    }
  }

  lemma {:induction false} CarefulRunIsSafe(s: State, steps: seq<Step>, k: nat)
    requires Inv(s) && NoOversell(s) && AlwaysCareful(s, steps) && k <= |steps|
    ensures NoOversell(Exec(s, steps[..k]))
  {
    hide NoOversell, Guard, Careful, Apply;
    if k == 0 {
      assert steps[..0] == [];
    } else {
      CarefulRunIsSafe(s, steps, k - 1);
      PrefixStep(s, steps, k - 1);
      AlwaysInv(s, steps[..k - 1]);
      CarefulIsGuarded(Exec(s, steps[..k - 1]), steps[k - 1]);
      StepExact(Exec(s, steps[..k - 1]), steps[k - 1]);
    }
  }

  // ------------------------------------------------------------------------------------------
  // A refresh that oversells
  // ------------------------------------------------------------------------------------------

  const IN_STOCK := State(map["p" := Product(true, Some(1))], [], 0, 1)
  const HELD_ONE := IN_STOCK.(holds := [Hold("p", "c", 1, 1)])
  const HELD_TWO := IN_STOCK.(holds := [Hold("p", "c", 2, 1)])

  lemma HeldSingle(h: Hold, p: ProductId, now: int)
    ensures Held([h], p, now) == Weight(h, p, now)
  {
    assert [h][..0] == [] && Held([], p, now) == 0;
  }

  lemma HoldingTheUnit()
    ensures Inv(IN_STOCK) && NoOversell(IN_STOCK)
    ensures Apply(IN_STOCK, Reserve("p", "c", 1)) == HELD_ONE && NoOversell(HELD_ONE)
  {
    HeldSingle(HELD_ONE.holds[0], "p", 0);
    assert Held([], "p", 0) == 0 && Find([], "p", "c") == None;
    assert [] + HELD_ONE.holds == HELD_ONE.holds;
  }

  lemma RefreshingToTwo()
    ensures Apply(HELD_ONE, Reserve("p", "c", 2)) == HELD_TWO && !NoOversell(HELD_TWO)
  {
    HeldSingle(HELD_TWO.holds[0], "p", 0);
    hide Held;
    assert Find(HELD_ONE.holds, "p", "c") == Some(0);
    assert "p" in HELD_TWO.products && HELD_TWO.products["p"].physical;
  }

  /** One unit in stock, one cart: it holds the unit, then refreshes its hold to two. */
  lemma RefreshOversells()
    ensures Inv(IN_STOCK) && NoOversell(IN_STOCK) && NoOversell(Exec(IN_STOCK, [Reserve("p", "c", 1)]))
    ensures !NoOversell(Exec(IN_STOCK, [Reserve("p", "c", 1), Reserve("p", "c", 2)]))
  {
    HoldingTheUnit();
    RefreshingToTwo();
    ExecNothing(IN_STOCK);
    hide Apply, NoOversell, Inv, Exec;
    var steps := [Reserve("p", "c", 1), Reserve("p", "c", 2)];
    PrefixStep(IN_STOCK, steps, 0);
    PrefixStep(IN_STOCK, steps, 1);
    assert steps[..0] == [] && steps[..1] == [Reserve("p", "c", 1)] && steps[..2] == steps;
  }

  lemma ExecNothing(s: State)
    ensures Exec(s, []) == s
  {
  }

  // ------------------------------------------------------------------------------------------
  // The service
  // ------------------------------------------------------------------------------------------

  datatype ReserveResult = Reserved | Refreshed | ProductNotFound | NotApplicable | InsufficientStock | Invalid

  /** The product of each of the cart's holds loses the hold's quantity, once and not below zero; no other row moves. */
  ghost predicate DeductedOnce(s: State, t: State, c: CartId) {
    && t.products.Keys == s.products.Keys
    && (forall h :: h in s.holds && h.cartId == c ==>
          && h.productId in s.products && h.productId in t.products
          && t.products[h.productId]
             == s.products[h.productId].(stock := Some(Max(0, StockOf(s.products[h.productId]) - h.quantity))))
    && (forall p :: p in s.products && (forall h :: h in s.holds && h.cartId == c ==> h.productId != p)
                    ==> t.products[p] == s.products[p])
    && (forall h :: h in t.holds <==> h in s.holds && h.cartId != c)
  }

  lemma ConfirmInRows(s: State, c: CartId)
    requires Inv(s)
    ensures DeductedOnce(s, Apply(s, Confirm(c)), c)
  {
    hide OfCart, WithoutCart, DeductAll, Held, UniqueHolds, DistinctProducts;
    var mine := OfCart(s.holds, c);
    OfCartElements(s.holds, c);
    CartHoldsDistinct(s.holds, c);
    DeductAllAt(s.products, mine, "");
    forall h | h in s.holds && h.cartId == c
      ensures h.productId in s.products
      ensures DeductAll(s.products, mine)[h.productId]
              == s.products[h.productId].(stock := Some(Max(0, StockOf(s.products[h.productId]) - h.quantity)))
    {
      var k :| 0 <= k < |s.holds| && s.holds[k] == h;
      assert HoldOk(s.holds[k], s.products);
      var m :| 0 <= m < |mine| && mine[m] == h;
      DeductHeld(s.products, mine, m);
    }
    forall p | p in s.products && forall h :: h in s.holds && h.cartId == c ==> h.productId != p
      ensures DeductAll(s.products, mine)[p] == s.products[p]
    {
      assert forall m :: 0 <= m < |mine| ==> mine[m] in mine;
      DeductAllAt(s.products, mine, p);
    }
  }

  /** The whole row of a held physical product after the deductions. */
  lemma {:induction false} DeductHeld(products: map<ProductId, Product>, holds: seq<Hold>, m: nat)
    requires DistinctProducts(holds) && m < |holds|
    requires holds[m].productId in products && products[holds[m].productId].physical
    ensures var p := holds[m].productId;
            p in DeductAll(products, holds)
            && DeductAll(products, holds)[p]
               == products[p].(stock := Some(Max(0, StockOf(products[p]) - holds[m].quantity)))
  {
    var n := |holds| - 1;
    DeductAllAt(products, holds[..n], holds[m].productId);
    if m < n {
      DeductHeld(products, holds[..n], m);
    }
  }

  /** The cart has a hold of the product, expired or not. */
  predicate HasHold(holds: seq<Hold>, p: ProductId, c: CartId) {
    exists k :: 0 <= k < |holds| && holds[k].productId == p && holds[k].cartId == c
  }

  lemma Replaced(holds: seq<Hold>, i: nat, h: Hold)
    requires i < |holds| && h.productId == holds[i].productId && h.cartId == holds[i].cartId
    ensures h in holds[i := h]
    ensures forall g :: g in holds && (g.productId != h.productId || g.cartId != h.cartId) ==> g in holds[i := h]
    ensures UniqueHolds(holds) ==> forall g :: g in holds[i := h] ==>
              (g in holds && (g.productId != h.productId || g.cartId != h.cartId)) || g == h
  {
    assert holds[i := h][i] == h;
    forall g | g in holds && (g.productId != h.productId || g.cartId != h.cartId)
      ensures g in holds[i := h]
    {
      var k :| 0 <= k < |holds| && holds[k] == g;
      assert holds[i := h][k] == g;
    }
  }

  class StockService {
    var products: map<ProductId, Product>
    var holds: seq<Hold>
    var now: int
    const ttl: int

    ghost function Snapshot(): State
      reads this
    {
      State(products, holds, now, ttl)
    }

    constructor (products: map<ProductId, Product>, now: int, ttl: int)
      requires ttl > 0
      ensures Snapshot() == State(products, [], now, ttl) && Inv(Snapshot())
    {
      this.products, this.now, this.ttl, holds := products, now, ttl, [];
    }

    /** The sum query over unexpired holds. */
    method GetActiveReservedQuantity(p: ProductId) returns (total: int)
      ensures total == Held(holds, p, now)
    {
      total := 0;
      for i := 0 to |holds|
        invariant total == Held(holds[..i], p, now)
      {
        assert holds[..i + 1][..i] == holds[..i];
        if holds[i].productId == p && holds[i].expiresAt > now {
          total := total + holds[i].quantity;
        }
      }
      assert holds[..|holds|] == holds;
    }

    method ReserveStock(p: ProductId, c: CartId, quantity: int) returns (result: ReserveResult)
      modifies `holds
      ensures Snapshot() == Apply(old(Snapshot()), Reserve(p, c, quantity))
      ensures result.Invalid? <==> quantity < 1
      ensures result.ProductNotFound? <==> quantity >= 1 && p !in products
      ensures result.NotApplicable? <==> quantity >= 1 && p in products && !products[p].physical
      ensures result.Refreshed? <==> quantity >= 1 && p in products && products[p].physical && HasHold(old(holds), p, c)
      ensures result.InsufficientStock?
              <==> quantity >= 1 && p in products && products[p].physical && !HasHold(old(holds), p, c)
                   && (if products[p].stock.Some? then products[p].stock.value else 0) - Held(old(holds), p, now) < quantity
      ensures !result.Reserved? && !result.Refreshed? ==> holds == old(holds)
      ensures result.Reserved? ==> holds == old(holds) + [Hold(p, c, quantity, now + ttl)]
      ensures result.Reserved? && ttl > 0 ==>
                forall q :: Held(holds, q, now) == Held(old(holds), q, now) + if q == p then quantity else 0
      ensures result.Refreshed? ==> Hold(p, c, quantity, now + ttl) in holds && |holds| == |old(holds)|
      ensures result.Refreshed? ==> forall h :: h in old(holds) && (h.productId != p || h.cartId != c) ==> h in holds
      ensures result.Refreshed? && UniqueHolds(old(holds)) ==>
                forall h :: h in holds ==> (h in old(holds) && (h.productId != p || h.cartId != c))
                                           || h == Hold(p, c, quantity, now + ttl)
    {
      hide Held, Find;
      if quantity < 1 {
        return Invalid;
      }
      if p !in products {
        return ProductNotFound;
      }
      if !products[p].physical {
        return NotApplicable;
      }
      var existing := Find(holds, p, c);
      if existing.Some? {
        Replaced(holds, existing.value, Hold(p, c, quantity, now + ttl));
        holds := holds[existing.value := Hold(p, c, quantity, now + ttl)];
        return Refreshed;
      }
      var reservedQuantity := GetActiveReservedQuantity(p);
      var availableQuantity := StockOf(products[p]) - reservedQuantity;
      if availableQuantity < quantity {
        return InsufficientStock;
      }
      forall q { HeldAppend(holds, Hold(p, c, quantity, now + ttl), q, now); }
      holds := holds + [Hold(p, c, quantity, now + ttl)];
      result := Reserved;
    }

    /** Removes the cart's holds and returns them, for the events; every other hold stays where it was. */
    method ReleaseReservation(c: CartId) returns (released: seq<Hold>)
      modifies `holds
      ensures Snapshot() == Apply(old(Snapshot()), ReleaseCart(c))
      ensures forall h :: h in released <==> h in old(holds) && h.cartId == c
      ensures forall h :: h in holds <==> h in old(holds) && h.cartId != c
      ensures forall p :: Held(holds, p, now) + Held(released, p, now) == Held(old(holds), p, now)
    {
      hide OfCart, WithoutCart, Held;
      released := OfCart(holds, c);
      OfCartElements(holds, c);
      forall p { HeldSplit(holds, c, p, now); }
      if |released| == 0 {
        NothingToRemove(holds, c);
        return;
      }
      holds := WithoutCart(holds, c);
    }

    /**
     The loop of a confirmation: every row was loaded with its product before the loop, so an iteration
     writes back the copy it loaded then.
     */
    method DeductEach(reservations: seq<Hold>)
      requires DistinctProducts(reservations)
      requires forall k :: 0 <= k < |reservations| ==> HoldOk(reservations[k], products)
      modifies `products
      ensures products == DeductAll(old(products), reservations)
    {
      var before := products;
      var loaded := seq(|reservations|, k requires 0 <= k < |reservations| && reservations[k].productId in before
                                          => before[reservations[k].productId]);
      for i := 0 to |reservations|
        invariant products == DeductAll(before, reservations[..i])
      {
        assert reservations[..i + 1][..i] == reservations[..i];
        DeductAllAt(before, reservations[..i], reservations[i].productId);
        var product := loaded[i];
        if product.physical {
          product := product.(stock := Some(Max(0, StockOf(product) - reservations[i].quantity)));
          products := products[reservations[i].productId := product];
        }
      }
      assert reservations[..|reservations|] == reservations;
    }

    /**
     Each hold comes with its own copy of its product, loaded before the loop and saved whole by it. With
     unique holds no copy is stale when it is saved, so the loop equals deducting the holds one by one.
     */
    method ConfirmReservation(c: CartId) returns (found: bool)
      requires Inv(Snapshot())
      modifies `products, `holds
      ensures Snapshot() == Apply(old(Snapshot()), Confirm(c))
      ensures found <==> exists h :: h in old(holds) && h.cartId == c
      ensures DeductedOnce(old(Snapshot()), Snapshot(), c)
    {
      hide DeductedOnce;
      ConfirmInRows(Snapshot(), c);
      hide OfCart, WithoutCart, Held, Find;
      var reservations := OfCart(holds, c);
      CartHoldsDistinct(holds, c);
      OfCartElements(holds, c);
      if |reservations| == 0 {
        NothingToRemove(holds, c);
        return false;
      }
      assert forall k :: 0 <= k < |reservations| ==> reservations[k] in holds && HoldOk(reservations[k], products);
      DeductEach(reservations);
      holds := WithoutCart(holds, c);
      found := true;
    }

    /** Removes the holds past their expiry, which frees nothing: they did not count any more. */
    method CleanupExpiredReservations() returns (removed: nat)
      modifies `holds
      ensures Snapshot() == Apply(old(Snapshot()), Cleanup)
      ensures removed == |old(holds)| - |holds|
      ensures forall h :: h in holds <==> h in old(holds) && h.expiresAt >= now
      ensures forall p :: Held(holds, p, now) == Held(old(holds), p, now)
    {
      hide Unexpired, Held;
      UnexpiredElements(holds, now);
      UnexpiredShrinks(holds, now);
      forall p { HeldUnexpired(holds, p, now); }
      removed := |holds| - |Unexpired(holds, now)|;
      holds := Unexpired(holds, now);
    }

    method SetStock(p: ProductId, stockQuantity: int) returns (ok: bool)
      modifies `products
      ensures Snapshot() == Apply(old(Snapshot()), UpdateStock(p, stockQuantity))
      ensures ok <==> p in old(products) && old(products)[p].physical && stockQuantity >= 0
      ensures products == if ok then old(products)[p := Product(true, Some(stockQuantity))] else old(products)
    {
      if p !in products || !products[p].physical || stockQuantity < 0 {
        return false;
      }
      products := products[p := products[p].(stock := Some(stockQuantity))];
      ok := true;
    }
  }

  lemma {:induction false} UnexpiredShrinks(holds: seq<Hold>, now: int)
    ensures |Unexpired(holds, now)| <= |holds|
  {
    if holds != [] {
      UnexpiredShrinks(holds[..|holds| - 1], now);
    }
  }

  lemma {:induction false} NothingToRemove(holds: seq<Hold>, c: CartId)
    requires OfCart(holds, c) == []
    ensures WithoutCart(holds, c) == holds
  {
    if holds != [] {
      var n := |holds| - 1;
      NothingToRemove(holds[..n], c);
      assert holds == holds[..n] + [holds[n]];
    }
  }
}
