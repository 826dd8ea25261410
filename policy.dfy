/**
 * The access decisions of the menu and order views, as pure functions of the
 * requester's group names and the order's fields, and the field-level effect
 * of a partial order update.
 */
module Policy {
  import opened Domain

  /** The requester holds at least one of the three business roles. */
  predicate InAnyRole(groups: set<string>) {
    CUSTOMER in groups || DELIVERY_CREW in groups || MANAGER in groups
  }

  predicate Mutating(m: HttpMethod) {
    m == POST || m == PUT || m == PATCH || m == DELETE
  }

  /**
   * The permission gate of the menu-item views: mutating methods need the
   * admin bit, every other method only an authenticated requester
   * (`None` is an anonymous one).
   */
  function MenuGate(m: HttpMethod, requester: Option<User>): (allowed: bool)
    ensures allowed ==> requester.Some?
    ensures allowed && Mutating(m) ==> requester.value.isStaff
    ensures requester.Some? && requester.value.isStaff ==> allowed
    ensures requester.Some? && !Mutating(m) ==> allowed
  {
    if Mutating(m) then requester.Some? && requester.value.isStaff
    else requester.Some?
  }

  /**
   * The permission gate of the order views. Both of its branches ask for an
   * authenticated requester only, so the method never matters and every
   * role check happens inside the views.
   */
  function OrderGate(m: HttpMethod, requester: Option<User>): (allowed: bool)
    ensures allowed <==> requester.Some?
  {
    if m == PUT || m == PATCH || m == DELETE then requester.Some?
    else requester.Some?
  }

  /**
   * The orders a list request returns. The roles are tried in the order
   * Customer, Delivery Crew, Manager and the first one held decides; the
   * result is never a union of several roles' views.
   */
  function VisibleOrders(orders: map<OrderId, Order>, requester: UserId, groups: set<string>)
    : (r: map<OrderId, Order>)
    ensures forall id :: id in r ==> id in orders && r[id] == orders[id]
    ensures CUSTOMER in groups ==>
      forall id :: id in orders ==> (id in r <==> orders[id].user == requester)
    ensures CUSTOMER !in groups && DELIVERY_CREW in groups ==>
      forall id :: id in orders ==> (id in r <==> orders[id].deliveryCrew == Some(requester))
    ensures CUSTOMER !in groups && DELIVERY_CREW !in groups && MANAGER in groups ==> r == orders
    ensures !InAnyRole(groups) ==> r == map[]
  {
    if CUSTOMER in groups then
      map id | id in orders && orders[id].user == requester :: orders[id]
    else if DELIVERY_CREW in groups then
      map id | id in orders && orders[id].deliveryCrew == Some(requester) :: orders[id]
    else if MANAGER in groups then
      orders
    else
      map[]
  }

  /** Who may retrieve a single order: its owner, its assignee, or a Manager. */
  predicate MayRetrieve(o: Order, requester: UserId, groups: set<string>) {
    o.user == requester || o.deliveryCrew == Some(requester) || MANAGER in groups
  }

  /** Every order a list shows can also be retrieved by the same requester. */
  lemma ListedOrdersAreRetrievable(orders: map<OrderId, Order>, requester: UserId, groups: set<string>, id: OrderId)
    requires id in VisibleOrders(orders, requester, groups)
    ensures id in orders && MayRetrieve(orders[id], requester, groups)
  {
  }

  /**
   * The list is not a union over roles: a requester who is both a Customer and
   * a Manager may retrieve an order of someone else's, yet does not see it
   * listed.
   */
  lemma ListIsNotUnionOfRoles(orders: map<OrderId, Order>, requester: UserId, groups: set<string>, id: OrderId)
    requires CUSTOMER in groups && MANAGER in groups
    requires id in orders && orders[id].user != requester
    ensures MayRetrieve(orders[id], requester, groups)
    ensures id !in VisibleOrders(orders, requester, groups)
  {
  }

  /**
   * What "only the supplied fields change" means for an order `r` obtained
   * from `o` by the patch `p`, field by field.
   */
  predicate PatchedFrom(r: Order, o: Order, p: OrderPatch) {
    && (if p.user.Some? then r.user == p.user.value else r.user == o.user)
    && (if p.deliveryCrew.Some? then r.deliveryCrew == p.deliveryCrew.value else r.deliveryCrew == o.deliveryCrew)
    && (if p.status.Some? then r.status == p.status.value else r.status == o.status)
    && r.rest.Keys == o.rest.Keys + p.rest.Keys
    && (forall k :: k in p.rest ==> r.rest[k] == p.rest[k])
    && (forall k :: k in o.rest && k !in p.rest ==> r.rest[k] == o.rest[k])
  }

  /** A Manager's validated partial update: overwrite the supplied fields. */
  function ApplyPatch(o: Order, p: OrderPatch): (r: Order)
    ensures PatchedFrom(r, o, p)
  {
    Order(
      if p.user.Some? then p.user.value else o.user,
      if p.deliveryCrew.Some? then p.deliveryCrew.value else o.deliveryCrew,
      if p.status.Some? then p.status.value else o.status,
      o.rest + p.rest)
  }

  /** `PatchedFrom` determines the updated order: ApplyPatch is its only solution. */
  lemma PatchedFromIsUnique(r: Order, o: Order, p: OrderPatch)
    requires PatchedFrom(r, o, p)
    ensures r == ApplyPatch(o, p)
  {
  }

  /** The patch that supplies no field at all. */
  const EmptyPatch: OrderPatch := OrderPatch(None, None, None, map[])

  /** A Manager's patch that supplies `status` alone. */
  function StatusPatch(s: string): OrderPatch {
    OrderPatch(None, None, Some(s), map[])
  }

  /** Applying a patch a second time changes nothing more. */
  lemma ApplyPatchIdempotent(o: Order, p: OrderPatch)
    ensures ApplyPatch(ApplyPatch(o, p), p) == ApplyPatch(o, p)
  {
  }

  /** A patch that supplies nothing leaves the order as it was. */
  lemma EmptyPatchIsIdentity(o: Order)
    ensures ApplyPatch(o, EmptyPatch) == o
  {
  }

  /**
   * A Manager's status-only patch has the same effect as the Delivery Crew's
   * verbatim status write.
   */
  lemma StatusPatchIsStatusWrite(o: Order, s: string)
    ensures ApplyPatch(o, StatusPatch(s)) == o.(status := s)
  {
  }
}
