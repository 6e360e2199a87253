/**
 Merging a guest cart into a user's cart at login. A cart's rows are keyed by product and billing period,
 as the table's unique constraint demands, so a cart's content is a map from lines to quantities.
 */
module CartMerge {
  import opened Common

  type CartId = string
  type ProductId = string
  type UserId = string
  type SessionId = string

  datatype Period = Monthly | Yearly | OneTime
  datatype Line = Line(productId: ProductId, period: Period)
  type Content = map<Line, int>

  /** What the catalog answers; a product missing from the map could not be fetched. */
  datatype CatalogProduct = CatalogProduct(physical: bool, stock: Option<int>)
  type Catalog = map<ProductId, CatalogProduct>

  datatype Cart = Cart(userId: Option<UserId>, sessionId: Option<SessionId>, content: Content)

  type Carts = map<CartId, Cart>

  // ------------------------------------------------------------------------------------------
  // Merging contents
  // ------------------------------------------------------------------------------------------

  predicate Resolves(l: Line, catalog: Catalog) {
    l.productId in catalog
  }

  /** Physical products with a known stock are clamped to it. */
  function Clamp(l: Line, quantity: int, catalog: Catalog): int {
    if Resolves(l, catalog) && catalog[l.productId].physical && catalog[l.productId].stock.Some?
    then Min(quantity, catalog[l.productId].stock.value) else quantity
  }

  /** One guest row merged into the user's content. */
  function MergeLine(user: Content, l: Line, guestQuantity: int, catalog: Catalog): Content {
    if !Resolves(l, catalog) then user
    else user[l := Clamp(l, if l in user then Max(user[l], guestQuantity) else guestQuantity, catalog)]
  }

  /** Guest rows merged one after the other, in the given order. */
  function MergeEach(user: Content, order: seq<Line>, guest: Content, catalog: Catalog): Content
    requires forall k :: 0 <= k < |order| ==> order[k] in guest
  {
    if order == [] then user
    else
      var l := order[|order| - 1];
      MergeLine(MergeEach(user, order[..|order| - 1], guest, catalog), l, guest[l], catalog)
  }

  function Lookup(content: Content, l: Line): Option<int> {
    if l in content then Some(content[l]) else None
  }

  /** A line after the merge, from the line before it and the guest's: the larger quantity, clamped. */
  function MergedLine(user: Option<int>, guest: Option<int>, l: Line, catalog: Catalog): Option<int> {
    if guest.Some? && Resolves(l, catalog)
    then Some(Clamp(l, if user.Some? then Max(user.value, guest.value) else guest.value, catalog))
    else user
  }

  /** The whole content after the merge, line by line. */
  function Merged(user: Content, guest: Content, catalog: Catalog): Content {
    map l | l in user.Keys + guest.Keys && MergedLine(Lookup(user, l), Lookup(guest, l), l, catalog).Some?
      :: MergedLine(Lookup(user, l), Lookup(guest, l), l, catalog).value
  }

  lemma LookupMerged(user: Content, guest: Content, catalog: Catalog, l: Line)
    ensures Lookup(Merged(user, guest, catalog), l) == MergedLine(Lookup(user, l), Lookup(guest, l), l, catalog)
  {
    hide Clamp;
    assert l in user.Keys + guest.Keys <==> l in user || l in guest;
  }

  lemma SameLookups(a: Content, b: Content)
    requires forall l :: Lookup(a, l) == Lookup(b, l)
    ensures a == b
  {
    forall l
      ensures l in a <==> l in b
      ensures l in a ==> a[l] == b[l]
    {
      assert Lookup(a, l) == Lookup(b, l);
    }
  }

  lemma {:induction false} LookupMergeEach(user: Content, order: seq<Line>, guest: Content, catalog: Catalog, l: Line)
    requires NoDuplicates(order) && forall k :: 0 <= k < |order| ==> order[k] in guest
    ensures Lookup(MergeEach(user, order, guest, catalog), l)
            == if l in order then MergedLine(Lookup(user, l), Lookup(guest, l), l, catalog) else Lookup(user, l)
  {
    hide Clamp;
    if order != [] {
      var n := |order| - 1;
      LookupMergeEach(user, order[..n], guest, catalog, l);
      assert l in order <==> l in order[..n] || l == order[n];
      assert order[n] !in order[..n];
    }
  }

  /** Merging row by row gives the merged content, in whatever order the database returns the guest rows. */
  lemma MergeEachIsMerged(user: Content, order: seq<Line>, guest: Content, catalog: Catalog)
    requires NoDuplicates(order) && forall l :: l in order <==> l in guest
    ensures MergeEach(user, order, guest, catalog) == Merged(user, guest, catalog)
  {
    hide MergeEach, Merged, MergedLine;
    forall l
      ensures Lookup(MergeEach(user, order, guest, catalog), l) == Lookup(Merged(user, guest, catalog), l)
    {
      LookupMergeEach(user, order, guest, catalog, l);
      LookupMerged(user, guest, catalog, l);
      assert l !in guest ==> MergedLine(Lookup(user, l), Lookup(guest, l), l, catalog) == Lookup(user, l) by {
        NoGuestLine(Lookup(user, l), l, catalog);
      }
    }
    SameLookups(MergeEach(user, order, guest, catalog), Merged(user, guest, catalog));
  }

  lemma NoGuestLine(user: Option<int>, l: Line, catalog: Catalog)
    ensures MergedLine(user, None, l, catalog) == user
  {
  }

  function JoinLine(a: Option<int>, b: Option<int>): Option<int> {
    if a.Some? && b.Some? then Some(Max(a.value, b.value)) else if a.Some? then a else b
  }

  /** The larger quantity per line of two guest carts. */
  function Join(a: Content, b: Content): Content {
    map l | l in a.Keys + b.Keys && JoinLine(Lookup(a, l), Lookup(b, l)).Some? :: JoinLine(Lookup(a, l), Lookup(b, l)).value
  }

  lemma LookupJoin(a: Content, b: Content, l: Line)
    ensures Lookup(Join(a, b), l) == JoinLine(Lookup(a, l), Lookup(b, l))
  {
    assert l in a.Keys + b.Keys <==> l in a || l in b;
  }

  lemma MergeLineTwice(user: Option<int>, a: Option<int>, b: Option<int>, l: Line, catalog: Catalog)
    ensures MergedLine(MergedLine(user, a, l, catalog), b, l, catalog) == MergedLine(user, JoinLine(a, b), l, catalog)
  {
  }

  /** Merging two guest carts one after the other is merging their line-wise maximum at once. */
  lemma MergeTwice(user: Content, a: Content, b: Content, catalog: Catalog)
    ensures Merged(Merged(user, a, catalog), b, catalog) == Merged(user, Join(a, b), catalog)
  {
    hide Merged, MergedLine, Join, JoinLine, Lookup;
    var once, both := Merged(user, a, catalog), Merged(user, Join(a, b), catalog);
    forall l
      ensures Lookup(Merged(once, b, catalog), l) == Lookup(both, l)
    {
      LookupMerged(user, a, catalog, l);
      LookupMerged(once, b, catalog, l);
      LookupJoin(a, b, l);
      LookupMerged(user, Join(a, b), catalog, l);
      MergeLineTwice(Lookup(user, l), Lookup(a, l), Lookup(b, l), l, catalog);
    }
    SameLookups(Merged(once, b, catalog), both);
  }

  lemma JoinLaws(a: Content, b: Content)
    ensures Join(a, b) == Join(b, a) && Join(a, a) == a
  {
    hide Join;
    forall l
      ensures Lookup(Join(a, b), l) == Lookup(Join(b, a), l)
      ensures Lookup(Join(a, a), l) == Lookup(a, l)
    {
      LookupJoin(a, b, l);
      LookupJoin(b, a, l);
      LookupJoin(a, a, l);
    }
    SameLookups(Join(a, b), Join(b, a));
    SameLookups(Join(a, a), a);
  }

  /** So the order of two merges does not matter, and merging the same cart again changes nothing. */
  lemma MergeCommutes(user: Content, a: Content, b: Content, catalog: Catalog)
    ensures Merged(Merged(user, a, catalog), b, catalog) == Merged(Merged(user, b, catalog), a, catalog)
    ensures Merged(Merged(user, a, catalog), a, catalog) == Merged(user, a, catalog)
  {
    hide Merged, Join;
    MergeTwice(user, a, b, catalog);
    MergeTwice(user, b, a, catalog);
    MergeTwice(user, a, a, catalog);
    JoinLaws(a, b);
  }

  /** No merged line of a physical product exceeds the stock, and no other line changes. */
  lemma MergeRespectsStock(user: Content, guest: Content, catalog: Catalog, l: Line)
    ensures var after := Merged(user, guest, catalog);
            if l in guest && Resolves(l, catalog) then
              && l in after
              && (catalog[l.productId].physical && catalog[l.productId].stock.Some?
                  ==> after[l] <= catalog[l.productId].stock.value)
              && (after[l] == guest[l] || (l in user && after[l] == user[l])
                  || (catalog[l.productId].physical && catalog[l.productId].stock == Some(after[l])))
            else (l in after <==> l in user) && (l in user ==> after[l] == user[l])
  {
    hide Merged;
    LookupMerged(user, guest, catalog, l);
  }

  /**
   A merge, line by line: a guest line whose product the catalog knows gets the larger of both quantities,
   or the stock of a physical product if that is known and smaller; every other line is the user's.
   */
  lemma MergedInFull(user: Content, guest: Content, catalog: Catalog, l: Line)
    ensures var after := Merged(user, guest, catalog);
            && (l in after <==> l in user || (l in guest && l.productId in catalog))
            && (l in guest && l.productId in catalog ==>
                  var larger := if l in user && user[l] > guest[l] then user[l] else guest[l];
                  var product := catalog[l.productId];
                  after[l] == if product.physical && product.stock.Some? && product.stock.value < larger
                              then product.stock.value else larger)
            && (l in user && (l !in guest || l.productId !in catalog) ==> after[l] == user[l])
  {
    hide Merged;
    LookupMerged(user, guest, catalog, l);
  }

  /** Every line holds at least one, as adding an item guarantees. */
  predicate Positive(content: Content) {
    forall l :: l in content ==> content[l] >= 1
  }

  /** A known stock below one empties the merged line without removing it. */
  predicate SoldOut(l: Line, catalog: Catalog) {
    Resolves(l, catalog) && catalog[l.productId].physical && catalog[l.productId].stock.Some?
    && catalog[l.productId].stock.value < 1
  }

  /** A merge keeps every quantity at least one if and only if no guest line's product is sold out. */
  lemma PositiveExactly(user: Content, guest: Content, catalog: Catalog)
    requires Positive(user) && Positive(guest)
    ensures Positive(Merged(user, guest, catalog)) <==> forall l :: l in guest ==> !SoldOut(l, catalog)
  {
    hide Merged;
    var after := Merged(user, guest, catalog);
    forall l
      ensures l in guest && SoldOut(l, catalog) ==> l in after && after[l] < 1
      ensures l in after && after[l] < 1 ==> l in guest && SoldOut(l, catalog)
    {
      LookupMerged(user, guest, catalog, l);
    }
  }

  /** One item of a physical product whose stock is 0: the merge leaves its line, with quantity 0. */
  lemma SoldOutLineStays(l: Line)
    ensures var after := Merged(map[], map[l := 1], map[l.productId := CatalogProduct(true, Some(0))]);
            l in after && after[l] == 0
  {
    hide Merged;
    LookupMerged(map[], map[l := 1], map[l.productId := CatalogProduct(true, Some(0))], l);
  }

  // ------------------------------------------------------------------------------------------
  // Merging carts
  // ------------------------------------------------------------------------------------------

  /** The partial unique indexes on user and session. */
  predicate UniqueOwners(carts: Carts) {
    && (forall c, d :: c in carts && d in carts && c != d && carts[c].userId.Some? ==> carts[c].userId != carts[d].userId)
    && (forall c, d :: c in carts && d in carts && c != d && carts[c].sessionId.Some?
                      ==> carts[c].sessionId != carts[d].sessionId)
  }

  ghost function CartOfUser(carts: Carts, u: UserId): (c: Option<CartId>)
    ensures c.Some? ==> c.value in carts && carts[c.value].userId == Some(u)
    ensures c.None? ==> forall d :: d in carts ==> carts[d].userId != Some(u)
  {
    if exists d :: d in carts && carts[d].userId == Some(u)
    then var d :| d in carts && carts[d].userId == Some(u); Some(d) else None
  }

  ghost function CartOfSession(carts: Carts, s: SessionId): (c: Option<CartId>)
    ensures c.Some? ==> c.value in carts && carts[c.value].sessionId == Some(s)
    ensures c.None? ==> forall d :: d in carts ==> carts[d].sessionId != Some(s)
  {
    if exists d :: d in carts && carts[d].sessionId == Some(s)
    then var d :| d in carts && carts[d].sessionId == Some(s); Some(d) else None
  }

  /** `newId` names the cart that is created when the user has none. */
  ghost function MergeCarts(carts: Carts, u: UserId, s: SessionId, newId: CartId, catalog: Catalog): Carts {
    var guest := CartOfSession(carts, s);
    if guest.None? || carts[guest.value].content == map[] then carts
    else
      var existing := CartOfUser(carts, u);
      var target := if existing.Some? then existing.value else newId;
      var before := if existing.Some? then carts[target] else Cart(Some(u), None, map[]);
      carts[target := before.(content := Merged(before.content, carts[guest.value].content, catalog))] - {guest.value}
  }

  /**
   After a merge the user has a cart if and only if the guest cart was not the user's own cart (it is when
   one cart carries both ids); then it holds the merged lines, the guest cart is gone and no other cart moved.
   */
  lemma UserCartSurvivesExactly(carts: Carts, u: UserId, s: SessionId, newId: CartId, catalog: Catalog)
    requires UniqueOwners(carts) && newId !in carts
    requires CartOfSession(carts, s).Some? && carts[CartOfSession(carts, s).value].content != map[]
    ensures var guest, existing := CartOfSession(carts, s).value, CartOfUser(carts, u);
            var after := MergeCarts(carts, u, s, newId, catalog);
            && (CartOfUser(after, u).Some? <==> existing != Some(guest))
            && CartOfSession(after, s).None?
            && (existing != Some(guest) ==>
                  var target := CartOfUser(after, u).value;
                  && target == (if existing.Some? then existing.value else newId)
                  && after[target].content == Merged(if existing.Some? then carts[existing.value].content else map[],
                                                     carts[guest].content, catalog))
            && forall c :: c in carts && c != guest && existing != Some(c) ==> c in after && after[c] == carts[c]
  {
    var guest, existing := CartOfSession(carts, s).value, CartOfUser(carts, u);
    var after := MergeCarts(carts, u, s, newId, catalog);
    var target := if existing.Some? then existing.value else newId;
    assert forall c :: c in after && c != target ==> c in carts && after[c] == carts[c];
    if existing != Some(guest) {
      assert target in after && after[target].userId == Some(u);
    }
  }

  /** What a merge leaves of the two carts; without a guest cart, or with an empty one, everything is as it was. */
  lemma MergeTouches(carts: Carts, u: UserId, s: SessionId, newId: CartId, catalog: Catalog)
    requires UniqueOwners(carts) && newId !in carts
    ensures (forall c :: c in carts && carts[c].sessionId == Some(s) ==> carts[c].content == map[])
            ==> MergeCarts(carts, u, s, newId, catalog) == carts
    ensures forall g, c :: g in carts && carts[g].sessionId == Some(s) && carts[g].content != map[]
                           && c in carts && carts[c].userId == Some(u) && c != g
                           ==> MergeCarts(carts, u, s, newId, catalog)
                               == carts[c := Cart(Some(u), carts[c].sessionId,
                                                  Merged(carts[c].content, carts[g].content, catalog))] - {g}
    ensures (forall c :: c in carts ==> carts[c].userId != Some(u)) ==>
              forall g :: g in carts && carts[g].sessionId == Some(s) && carts[g].content != map[]
                          ==> MergeCarts(carts, u, s, newId, catalog)
                              == carts[newId := Cart(Some(u), None, Merged(map[], carts[g].content, catalog))] - {g}
  {
    hide Merged;
  }

  /**
   Any other user keeps the cart, as it was, if and only if it was not the merged guest cart: it is when that
   user once asked for a cart with this session's id too. Then the cart is gone and its lines are u's.
   */
  lemma OtherCartSurvivesExactly(carts: Carts, u: UserId, s: SessionId, newId: CartId, catalog: Catalog, v: UserId)
    requires UniqueOwners(carts) && newId !in carts && v != u && CartOfUser(carts, v).Some?
    requires CartOfSession(carts, s).Some? && carts[CartOfSession(carts, s).value].content != map[]
    ensures var after, own := MergeCarts(carts, u, s, newId, catalog), CartOfUser(carts, v);
            && (CartOfUser(after, v).Some? <==> own != CartOfSession(carts, s))
            && (own != CartOfSession(carts, s) ==> CartOfUser(after, v) == own && after[own.value] == carts[own.value])
  {
    hide Merged;
    var after, own := MergeCarts(carts, u, s, newId, catalog), CartOfUser(carts, v);
    MergeKeepsUniqueOwners(carts, u, s, newId, catalog);
    if own != CartOfSession(carts, s) {
      assert after[own.value] == carts[own.value];
      CartOfUserIs(after, v, own.value);
    } else {
      forall c | c in after
        ensures after[c].userId != Some(v)
      {
        assert c in carts ==> after[c].userId == carts[c].userId;
      }
    }
  }

  /** Who asks for a cart; a user id takes precedence over a session id. */
  datatype Owner = Owner(userId: Option<UserId>, sessionId: Option<SessionId>)

  ghost function FindCart(carts: Carts, owner: Owner): Option<CartId> {
    if owner.userId.Some? then CartOfUser(carts, owner.userId.value)
    else if owner.sessionId.Some? then CartOfSession(carts, owner.sessionId.value)
    else None
  }

  /** The table refuses a cart without ids, and a second cart of one session. */
  ghost predicate Refused(carts: Carts, owner: Owner) {
    if owner.sessionId.Some? then CartOfSession(carts, owner.sessionId.value).Some? else owner.userId.None?
  }

  /** The carts after a cart was asked for; a new cart carries every id of its owner. */
  ghost function WithCart(carts: Carts, owner: Owner, newId: CartId): Carts {
    if FindCart(carts, owner).Some? || Refused(carts, owner) then carts
    else carts[newId := Cart(owner.userId, owner.sessionId, map[])]
  }

  /** A cart asked for with both ids carries both; once it holds an item, its own merge deletes it. */
  lemma SharedCartVanishes(l: Line, catalog: Catalog)
    ensures var carts := WithCart(map[], Owner(Some("u"), Some("s")), "c");
            && carts == map["c" := Cart(Some("u"), Some("s"), map[])]
            && MergeCarts(carts["c" := carts["c"].(content := map[l := 1])], "u", "s", "n", catalog) == map[]
  {
    hide Merged;
    var carts := map["c" := Cart(Some("u"), Some("s"), map[l := 1])];
    assert CartOfUser(carts, "u") == Some("c") by { assert carts["c"].userId == Some("u"); }
    assert CartOfSession(carts, "s") == Some("c") by { assert carts["c"].sessionId == Some("s"); }
    assert l in carts["c"].content;
    assert WithCart(map[], Owner(Some("u"), Some("s")), "c") == map["c" := Cart(Some("u"), Some("s"), map[])];
    assert MergeCarts(carts, "u", "s", "n", catalog).Keys == {};
  }

  /** The cart of "v", asked for with both ids, ends up as the cart of "u" when "u" merges the session. */
  lemma SharedCartIsTaken(l: Line)
    ensures var carts := WithCart(map[], Owner(Some("v"), Some("s")), "c");
            var catalog := map[l.productId := CatalogProduct(false, None)];
            && carts == map["c" := Cart(Some("v"), Some("s"), map[])]
            && MergeCarts(carts["c" := carts["c"].(content := map[l := 1])], "u", "s", "n", catalog)
               == map["n" := Cart(Some("u"), None, map[l := 1])]
  {
    var carts := map["c" := Cart(Some("v"), Some("s"), map[l := 1])];
    var catalog := map[l.productId := CatalogProduct(false, None)];
    OneLineMerged(l, catalog);
    hide Merged;
    assert CartOfUser(carts, "u") == None;
    assert CartOfSession(carts, "s") == Some("c") by { assert carts["c"].sessionId == Some("s"); }
    assert l in carts["c"].content;
    assert WithCart(map[], Owner(Some("v"), Some("s")), "c") == map["c" := Cart(Some("v"), Some("s"), map[])];
    assert MergeCarts(carts, "u", "s", "n", catalog).Keys == {"n"};
  }

  lemma OneLineMerged(l: Line, catalog: Catalog)
    requires Resolves(l, catalog) && !catalog[l.productId].physical
    ensures Merged(map[], map[l := 1], catalog) == map[l := 1]
  {
    assert Merged(map[], map[l := 1], catalog).Keys == {l};
  }

  lemma CartOfUserIs(carts: Carts, u: UserId, c: CartId)
    requires UniqueOwners(carts) && c in carts && carts[c].userId == Some(u)
    ensures CartOfUser(carts, u) == Some(c)
  {
  }

  lemma CartOfSessionIs(carts: Carts, s: SessionId, c: CartId)
    requires UniqueOwners(carts) && c in carts && carts[c].sessionId == Some(s)
    ensures CartOfSession(carts, s) == Some(c)
  {
  }

  /** The session names a cart with items that is not the user's own. */
  ghost predicate Mergeable(carts: Carts, u: UserId, s: SessionId) {
    && CartOfSession(carts, s).Some? && carts[CartOfSession(carts, s).value].content != map[]
    && CartOfUser(carts, u) != CartOfSession(carts, s)
  }

  /** The cart a merge for the user writes to, as it is before. */
  ghost function TargetOf(carts: Carts, u: UserId, newId: CartId): (CartId, Cart) {
    var existing := CartOfUser(carts, u);
    if existing.Some? then (existing.value, carts[existing.value]) else (newId, Cart(Some(u), None, map[]))
  }

  /** After one merge: the target is the user's cart, and another session's guest cart is where it was. */
  lemma AfterOneMerge(carts: Carts, u: UserId, s: SessionId, r: SessionId, newId: CartId, catalog: Catalog)
    requires UniqueOwners(carts) && newId !in carts && Mergeable(carts, u, s)
    requires r != s && (CartOfUser(carts, u).Some? ==> CartOfUser(carts, u) != CartOfSession(carts, r))
    ensures var after, guest := MergeCarts(carts, u, s, newId, catalog), CartOfSession(carts, s).value;
            var (target, cart) := TargetOf(carts, u, newId);
            && after == carts[target := cart.(content := Merged(cart.content, carts[guest].content, catalog))] - {guest}
            && TargetOf(after, u, newId) == (target, cart.(content := Merged(cart.content, carts[guest].content, catalog)))
            && CartOfSession(after, r) == CartOfSession(carts, r) && UniqueOwners(after)
            && CartOfUser(after, u) == Some(target) && target != guest
            && (CartOfSession(carts, r).Some?
                ==> after[CartOfSession(carts, r).value] == carts[CartOfSession(carts, r).value])
  {
    hide Merged;
    MergeKeepsUniqueOwners(carts, u, s, newId, catalog);
    var after := MergeCarts(carts, u, s, newId, catalog);
    CartOfUserIs(after, u, TargetOf(carts, u, newId).0);
    if CartOfSession(carts, r).Some? {
      CartOfSessionIs(after, r, CartOfSession(carts, r).value);
    }
  }

  /** Merging two guest carts of the user's sessions, neither of them the user's own cart, in either order. */
  lemma CartMergesCommute(carts: Carts, u: UserId, s: SessionId, r: SessionId, newId: CartId, catalog: Catalog)
    requires UniqueOwners(carts) && newId !in carts
    requires CartOfUser(carts, u).Some? ==>
               CartOfUser(carts, u) != CartOfSession(carts, s) && CartOfUser(carts, u) != CartOfSession(carts, r)
    ensures MergeCarts(MergeCarts(carts, u, s, newId, catalog), u, r, newId, catalog)
            == MergeCarts(MergeCarts(carts, u, r, newId, catalog), u, s, newId, catalog)
  {
    hide MergeCarts, Merged, UniqueOwners, TargetOf;
    if s != r && Mergeable(carts, u, s) && Mergeable(carts, u, r) {
      var (target, cart) := TargetOf(carts, u, newId);
      var g, h := CartOfSession(carts, s).value, CartOfSession(carts, r).value;
      TwoMerges(carts, u, s, r, newId, catalog);
      TwoMerges(carts, u, r, s, newId, catalog);
      MergeCommutes(cart.content, carts[g].content, carts[h].content, catalog);
    } else if s != r {
      OneMerges(carts, u, s, r, newId, catalog);
      OneMerges(carts, u, r, s, newId, catalog);
    }
  }

  lemma TwoMerges(carts: Carts, u: UserId, s: SessionId, r: SessionId, newId: CartId, catalog: Catalog)
    requires UniqueOwners(carts) && newId !in carts && s != r && Mergeable(carts, u, s) && Mergeable(carts, u, r)
    ensures var (target, cart) := TargetOf(carts, u, newId);
            var g, h := CartOfSession(carts, s).value, CartOfSession(carts, r).value;
            MergeCarts(MergeCarts(carts, u, s, newId, catalog), u, r, newId, catalog)
            == carts[target := cart.(content := Merged(Merged(cart.content, carts[g].content, catalog),
                                                       carts[h].content, catalog))] - {g, h}
  {
    hide Merged, UniqueOwners;
    AfterOneMerge(carts, u, s, r, newId, catalog);
  }

  /** A session without a cart, or with an empty one, merges nothing, before or after another merge. */
  lemma OneMerges(carts: Carts, u: UserId, s: SessionId, r: SessionId, newId: CartId, catalog: Catalog)
    requires UniqueOwners(carts) && newId !in carts && s != r && !(Mergeable(carts, u, s) && Mergeable(carts, u, r))
    requires CartOfUser(carts, u).Some? ==>
               CartOfUser(carts, u) != CartOfSession(carts, s) && CartOfUser(carts, u) != CartOfSession(carts, r)
    ensures MergeCarts(MergeCarts(carts, u, s, newId, catalog), u, r, newId, catalog)
            == if Mergeable(carts, u, s) then MergeCarts(carts, u, s, newId, catalog)
               else MergeCarts(carts, u, r, newId, catalog)
    ensures !Mergeable(carts, u, s) ==> MergeCarts(carts, u, s, newId, catalog) == carts
  {
    hide Merged, UniqueOwners;
    if Mergeable(carts, u, s) {
      AfterOneMerge(carts, u, s, r, newId, catalog);
    }
  }

  lemma MergeKeepsUniqueOwners(carts: Carts, u: UserId, s: SessionId, newId: CartId, catalog: Catalog)
    requires UniqueOwners(carts) && newId !in carts
    ensures UniqueOwners(MergeCarts(carts, u, s, newId, catalog))
  {
    hide Merged;
  }

  // ------------------------------------------------------------------------------------------
  // The service
  // ------------------------------------------------------------------------------------------

  class CartService {
    var carts: Carts

    ghost predicate Valid()
      reads this
    {
      UniqueOwners(carts)
    }

    constructor ()
      ensures Valid() && carts == map[]
    {
      carts := map[];
    }

    method FindBySession(s: SessionId) returns (c: Option<CartId>)
      requires Valid()
      ensures c == CartOfSession(carts, s)
    {
      if exists d :: d in carts && carts[d].sessionId == Some(s) {
        var d :| d in carts && carts[d].sessionId == Some(s);
        c := Some(d);
      } else {
        c := None;
      }
    }

    /** A user's cart by user id, a guest's by session id; a new one carries every id the owner came with. */
    method GetOrCreateCart(owner: Owner, newId: CartId) returns (c: Option<CartId>)
      requires Valid() && newId !in carts
      modifies this
      ensures Valid() && carts == WithCart(old(carts), owner, newId)
      ensures c == if FindCart(old(carts), owner).Some? then FindCart(old(carts), owner)
                   else if Refused(old(carts), owner) then None else Some(newId)
      ensures c.Some? ==> c.value in carts
      ensures owner.userId.Some? ==>
                forall d :: d in old(carts) && old(carts)[d].userId == owner.userId ==> c == Some(d) && carts == old(carts)
      ensures owner.userId.None? && owner.sessionId.Some? ==>
                forall d :: d in old(carts) && old(carts)[d].sessionId == owner.sessionId
                            ==> c == Some(d) && carts == old(carts)
      ensures c == Some(newId) ==> carts == old(carts)[newId := Cart(owner.userId, owner.sessionId, map[])]
      ensures c.None? ==> carts == old(carts)
      ensures c.None? <==> (owner.userId.None? && owner.sessionId.None?)
                           || (owner.userId.Some? && owner.sessionId.Some?
                               && (forall d :: d in old(carts) ==> old(carts)[d].userId != owner.userId)
                               && exists d :: d in old(carts) && old(carts)[d].sessionId == owner.sessionId)
    {
      if owner.userId.Some? {
        if exists d :: d in carts && carts[d].userId == owner.userId {
          var d :| d in carts && carts[d].userId == owner.userId;
          return Some(d);
        }
      } else if owner.sessionId.Some? {
        c := FindBySession(owner.sessionId.value);
        if c.Some? {
          return;
        }
      } else {
        return None;
      }
      if owner.sessionId.Some? {
        var taken := FindBySession(owner.sessionId.value);
        if taken.Some? {
          return None;
        }
      }
      carts := carts[newId := Cart(owner.userId, owner.sessionId, map[])];
      c := Some(newId);
    }

    /** The guest rows in the order the database happens to return them. */
    method LoadLines(content: Content) returns (lines: seq<Line>)
      ensures NoDuplicates(lines) && forall l :: l in lines <==> l in content
    {
      lines := [];
      var rest := content.Keys;
      while rest != {}
        invariant rest <= content.Keys && NoDuplicates(lines)
        invariant forall l :: l in lines <==> l in content && l !in rest
        decreases rest
      {
        var l :| l in rest;
        lines := lines + [l];
        rest := rest - {l};
      }
    }

    method MergeGuestCart(u: UserId, s: SessionId, newId: CartId, catalog: Catalog)
      requires Valid() && newId !in carts
      modifies this
      ensures Valid() && carts == MergeCarts(old(carts), u, s, newId, catalog)
    {
      hide Merged, UniqueOwners;
      MergeKeepsUniqueOwners(carts, u, s, newId, catalog);
      var guest := FindBySession(s);
      if guest.None? {
        return;
      }
      if carts[guest.value].content == map[] {
        return;
      }
      var guestContent := carts[guest.value].content;
      var target := GetOrCreateCart(Owner(Some(u), None), newId);
      MergeContent(target.value, guestContent, catalog);
      carts := carts - {guest.value};
      assert carts == MergeCarts(old(carts), u, s, newId, catalog);
    }

    /** The merge loop over the guest rows. */
    method MergeContent(target: CartId, guestContent: Content, catalog: Catalog)
      requires target in carts
      modifies this
      ensures carts == old(carts)[target := old(carts)[target].(
                                  content := Merged(old(carts)[target].content, guestContent, catalog))]
    {
      hide MergeLine, Merged;
      var guestItems := LoadLines(guestContent);
      ghost var user := carts[target].content;
      for i := 0 to |guestItems|
        invariant target in carts
        invariant carts == old(carts)[target := old(carts)[target].(
                                      content := MergeEach(user, guestItems[..i], guestContent, catalog))]
      {
        assert guestItems[..i + 1][..i] == guestItems[..i];
        MergeItem(target, guestItems[i], guestContent[guestItems[i]], catalog);
      }
      assert guestItems[..|guestItems|] == guestItems;
      MergeEachIsMerged(user, guestItems, guestContent, catalog);
    }

    /** One turn of the merge loop: look the row up, take the larger quantity, clamp, update or insert. */
    method MergeItem(target: CartId, l: Line, guestQuantity: int, catalog: Catalog)
      requires target in carts
      modifies this
      ensures carts == old(carts)[target := old(carts)[target].(
                                  content := MergeLine(old(carts)[target].content, l, guestQuantity, catalog))]
      ensures l.productId !in catalog ==> carts == old(carts)
    {
      var content := carts[target].content;
      var quantity := guestQuantity;
      if l in content {
        quantity := Max(content[l], guestQuantity);
      }
      if l.productId !in catalog {
        assert carts[target].(content := content) == carts[target];
        return;
      }
      var product := catalog[l.productId];
      if product.physical && product.stock.Some? {
        quantity := Min(quantity, product.stock.value);
      }
      carts := carts[target := carts[target].(content := content[l := quantity])];
    }
  }
}
