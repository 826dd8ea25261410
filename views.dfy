/**
 * The views of the restaurant API over an in-memory store. Each view is a
 * method that takes the requesting user and the request's data, returns the
 * response status (and body, where one is read back) and updates the store in
 * place. The requester is assumed authenticated; an id that names no user
 * simply belongs to no group.
 */
module Views {
  import opened Domain
  import opened Policy
  import opened Cart
  import opened Membership

  class Store {
    var users: map<UserId, User>
    /** The names of the rows of the group table. */
    var groups: set<string>
    var menuItems: map<MenuItemId, MenuItem>
    var orders: map<OrderId, Order>
    var cart: seq<CartLine>

    /** A user belongs only to existing groups, and usernames are unique. */
    ghost predicate Valid()
      reads this
    {
      && (forall id :: id in users ==> users[id].groups <= groups)
      && UniqueUsernames(users)
    }

    function GroupsOf(id: UserId): set<string>
      reads this
    {
      if id in users then users[id].groups else {}
    }

    constructor (users: map<UserId, User>, groups: set<string>, menuItems: map<MenuItemId, MenuItem>,
                 orders: map<OrderId, Order>, cart: seq<CartLine>)
      requires forall id :: id in users ==> users[id].groups <= groups
      requires UniqueUsernames(users)
      ensures Valid()
      ensures this.users == users && this.groups == groups && this.menuItems == menuItems
      ensures this.orders == orders && this.cart == cart
    {
      this.users := users;
      this.groups := groups;
      this.menuItems := menuItems;
      this.orders := orders;
      this.cart := cart;
    }

    // ----- menu items -----

    /** Listing the menu: open to any holder of a business role, 403 for anyone else. */
    method ListMenuItems(requester: UserId) returns (st: Status, items: map<MenuItemId, MenuItem>)
      ensures st == Ok || st == Forbidden
      ensures st == Ok <==> InAnyRole(GroupsOf(requester))
      ensures items == if st == Ok then menuItems else map[]
    {
      if InAnyRole(GroupsOf(requester)) {
        st, items := Ok, menuItems;
      } else {
        st, items := Forbidden, map[];
      }
    }

    // ----- orders -----

    /** Listing orders: 403 without a business role, otherwise the first matching role's scope. */
    method ListOrders(requester: UserId) returns (st: Status, visible: map<OrderId, Order>)
      ensures st == Ok || st == Forbidden
      ensures st == Forbidden <==> !InAnyRole(GroupsOf(requester))
      ensures visible == VisibleOrders(orders, requester, GroupsOf(requester))
    {
      var g := GroupsOf(requester);
      if CUSTOMER in g || DELIVERY_CREW in g || MANAGER in g {
        st, visible := Ok, VisibleOrders(orders, requester, g);
      } else {
        st, visible := Forbidden, map[];
      }
    }

    /** Retrieving one order: 404 when missing, else 200 for owner, assignee or Manager and 403 for the rest. */
    method RetrieveOrder(requester: UserId, id: OrderId) returns (st: Status, order: Option<Order>)
      ensures id !in orders ==> st == NotFound
      ensures id in orders ==> (st == Ok <==> MayRetrieve(orders[id], requester, GroupsOf(requester)))
      ensures id in orders && st != Ok ==> st == Forbidden
      ensures st == Ok ==> id in orders && order == Some(orders[id])
      ensures st != Ok ==> order == None
    {
      if id !in orders {
        return NotFound, None;
      }
      var o := orders[id];
      if o.user == requester || o.deliveryCrew == Some(requester) || MANAGER in GroupsOf(requester) {
        st, order := Ok, Some(o);
      } else {
        st, order := Forbidden, None;
      }
    }

    /**
     * Partially updating one order. A Manager's request goes through the
     * serializer (`isValid` is its validation verdict on the request data);
     * otherwise a Delivery Crew member may write `status` verbatim, on any
     * order; anyone else gets 403.
     */
    method PartialUpdateOrder(requester: UserId, id: OrderId, patch: OrderPatch, isValid: OrderPatch -> bool)
      returns (st: Status)
      requires Valid()
      modifies this
      ensures Valid()
      ensures users == old(users) && groups == old(groups)
      ensures menuItems == old(menuItems) && cart == old(cart)
      ensures id !in old(orders) ==> st == NotFound && orders == old(orders)
      ensures id in old(orders) && MANAGER in GroupsOf(requester) ==>
        if isValid(patch) then st == Ok && orders == old(orders)[id := ApplyPatch(old(orders)[id], patch)]
        else st == BadRequest && orders == old(orders)
      ensures id in old(orders) && MANAGER !in GroupsOf(requester) && DELIVERY_CREW in GroupsOf(requester) ==>
        if patch.status.Some? then st == Ok && orders == old(orders)[id := old(orders)[id].(status := patch.status.value)]
        else st == Forbidden && orders == old(orders)
      ensures id in old(orders) && MANAGER !in GroupsOf(requester) && DELIVERY_CREW !in GroupsOf(requester) ==>
        st == Forbidden && orders == old(orders)
    {
      if id !in orders {
        return NotFound;
      }
      var g := GroupsOf(requester);
      if MANAGER in g {
        if isValid(patch) {
          orders := orders[id := ApplyPatch(orders[id], patch)];
          st := Ok;
        } else {
          st := BadRequest;
        }
      } else if DELIVERY_CREW in g {
        if patch.status.Some? {
          orders := orders[id := orders[id].(status := patch.status.value)];
          st := Ok;
        } else {
          st := Forbidden;
        }
      } else {
        st := Forbidden;
      }
    }

    /** Deleting one order: 404 when missing, else 204 for a Manager (and the order is gone), 403 otherwise. */
    method DestroyOrder(requester: UserId, id: OrderId) returns (st: Status)
      requires Valid()
      modifies this
      ensures Valid()
      ensures users == old(users) && groups == old(groups)
      ensures menuItems == old(menuItems) && cart == old(cart)
      ensures id !in old(orders) ==> st == NotFound
      ensures id in old(orders) ==> (st == NoContent <==> MANAGER in GroupsOf(requester))
      ensures id in old(orders) && st != NoContent ==> st == Forbidden
      ensures orders == if st == NoContent then old(orders) - {id} else old(orders)
    {
      if id !in orders {
        return NotFound;
      }
      if MANAGER in GroupsOf(requester) {
        orders := orders - {id};
        st := NoContent;
      } else {
        st := Forbidden;
      }
    }

    // ----- cart -----

    /** Listing the cart: exactly the requester's own lines. */
    method ListCartItems(requester: UserId) returns (st: Status, lines: seq<CartLine>)
      ensures st == Ok
      ensures forall i :: 0 <= i < |lines| ==> lines[i].user == requester
      ensures forall l :: l in cart && l.user == requester ==> l in lines
      ensures lines == LinesOf(cart, requester)
    {
      st, lines := Ok, LinesOf(cart, requester);
    }

    /**
     * Adding a cart line: when the serializer accepts the data, one line is
     * appended whose owner is the requester, whatever `user` the data names.
     */
    method AddToCart(requester: UserId, data: Fields, isValid: Fields -> bool)
      returns (st: Status, line: Option<CartLine>)
      requires Valid()
      modifies this
      ensures Valid()
      ensures users == old(users) && groups == old(groups)
      ensures menuItems == old(menuItems) && orders == old(orders)
      ensures isValid(data) ==>
        && st == Created
        && line == Some(CartLine(requester, data - {"user"}))
        && cart == old(cart) + [line.value]
      ensures !isValid(data) ==> st == BadRequest && line == None && cart == old(cart)
    {
      if isValid(data) {
        var l := CartLine(requester, data - {"user"});
        cart := cart + [l];
        st, line := Created, Some(l);
      } else {
        st, line := BadRequest, None;
      }
    }

    /** Clearing the cart: the requester's lines go, everyone else's stay; always 204. */
    method ClearCart(requester: UserId) returns (st: Status)
      requires Valid()
      modifies this
      ensures Valid()
      ensures users == old(users) && groups == old(groups)
      ensures menuItems == old(menuItems) && orders == old(orders)
      ensures st == NoContent
      ensures cart == LinesNotOf(old(cart), requester)
    {
      cart := LinesNotOf(cart, requester);
      st := NoContent;
    }

    // ----- group administration: the generic endpoint -----

    /**
     * Adding a user to a named group. An empty name is refused before any
     * lookup; the user is looked up before the group; a missing group is
     * reported as 400, not 404, because only a missing user has its own
     * handler.
     */
    method AddToGroup(pk: UserId, groupname: string) returns (st: Status)
      requires Valid()
      modifies this
      ensures Valid()
      ensures groups == old(groups) && menuItems == old(menuItems)
      ensures orders == old(orders) && cart == old(cart)
      ensures groupname == "" ==> st == BadRequest && users == old(users)
      ensures groupname != "" && pk !in old(users) ==> st == NotFound && users == old(users)
      ensures groupname != "" && pk in old(users) && groupname !in groups ==>
        st == BadRequest && users == old(users)
      ensures groupname != "" && pk in old(users) && groupname in groups ==>
        st == Ok && users == Join(old(users), pk, groupname)
    {
      if groupname == "" {
        return BadRequest;
      }
      if pk !in users {
        return NotFound;
      }
      if groupname !in groups {
        return BadRequest;
      }
      users := Join(users, pk, groupname);
      st := Ok;
    }

    /**
     * Removing a user from a named group: an empty name gives 400, a missing
     * user 404, a missing group 404; otherwise the membership is dropped
     * (a no-op for a non-member) and the response is 200.
     */
    method RemoveFromGroup(pk: UserId, groupname: string) returns (st: Status)
      requires Valid()
      modifies this
      ensures Valid()
      ensures groups == old(groups) && menuItems == old(menuItems)
      ensures orders == old(orders) && cart == old(cart)
      ensures groupname == "" ==> st == BadRequest && users == old(users)
      ensures groupname != "" && pk !in old(users) ==> st == NotFound && users == old(users)
      ensures groupname != "" && pk in old(users) && groupname !in groups ==>
        st == NotFound && users == old(users)
      ensures groupname != "" && pk in old(users) && groupname in groups ==>
        st == Ok && users == Leave(old(users), pk, groupname)
    {
      if groupname == "" {
        return BadRequest;
      }
      if pk !in users {
        return NotFound;
      }
      if groupname !in groups {
        return NotFound;
      }
      users := Leave(users, pk, groupname);
      st := Ok;
    }

    // ----- group administration: the Manager and Delivery Crew endpoints -----

    /** The usernames of the members of group `g`. */
    method ListMembers(g: string) returns (st: Status, names: set<string>)
      ensures st == Ok
      ensures forall id :: id in users && g in users[id].groups ==> users[id].username in names
      ensures names == MemberNames(users, g)
    {
      st, names := Ok, MemberNames(users, g);
    }

    /**
     * Adding a user, given by the optional `user_id` of the request data, to
     * group `g`: 404 when no such user (no id at all included), otherwise the
     * group is created if absent, the user joins it, and the response is 201.
     */
    method AddToRole(g: string, userId: Option<UserId>) returns (st: Status)
      requires Valid()
      modifies this
      ensures Valid()
      ensures menuItems == old(menuItems) && orders == old(orders) && cart == old(cart)
      ensures userId.None? || userId.value !in old(users) ==>
        st == NotFound && users == old(users) && groups == old(groups)
      ensures userId.Some? && userId.value in old(users) ==>
        && st == Created
        && groups == old(groups) + {g}
        && users == Join(old(users), userId.value, g)
    {
      if userId.None? || userId.value !in users {
        return NotFound;
      }
      groups := groups + {g};
      users := Join(users, userId.value, g);
      st := Created;
    }

    /**
     * Removing user `userId` from group `g`: 404 for a missing user, then 404
     * for a missing group, otherwise the membership is dropped and the
     * response is 200.
     */
    method RemoveFromRole(g: string, userId: UserId) returns (st: Status)
      requires Valid()
      modifies this
      ensures Valid()
      ensures groups == old(groups) && menuItems == old(menuItems)
      ensures orders == old(orders) && cart == old(cart)
      ensures userId !in old(users) ==> st == NotFound && users == old(users)
      ensures userId in old(users) && g !in groups ==> st == NotFound && users == old(users)
      ensures userId in old(users) && g in groups ==> st == Ok && users == Leave(old(users), userId, g)
    {
      if userId !in users {
        return NotFound;
      }
      if g !in groups {
        return NotFound;
      }
      users := Leave(users, userId, g);
      st := Ok;
    }

    method ListManagers() returns (st: Status, names: set<string>)
      ensures st == Ok
      ensures names == MemberNames(users, MANAGER)
    {
      st, names := ListMembers(MANAGER);
    }

    method AddManager(userId: Option<UserId>) returns (st: Status)
      requires Valid()
      modifies this
      ensures Valid()
      ensures menuItems == old(menuItems) && orders == old(orders) && cart == old(cart)
      ensures userId.None? || userId.value !in old(users) ==>
        st == NotFound && users == old(users) && groups == old(groups)
      ensures userId.Some? && userId.value in old(users) ==>
        st == Created && groups == old(groups) + {MANAGER} && users == Join(old(users), userId.value, MANAGER)
    {
      st := AddToRole(MANAGER, userId);
    }

    method RemoveManager(userId: UserId) returns (st: Status)
      requires Valid()
      modifies this
      ensures Valid()
      ensures groups == old(groups) && menuItems == old(menuItems)
      ensures orders == old(orders) && cart == old(cart)
      ensures userId !in old(users) ==> st == NotFound && users == old(users)
      ensures userId in old(users) && MANAGER !in groups ==> st == NotFound && users == old(users)
      ensures userId in old(users) && MANAGER in groups ==> st == Ok && users == Leave(old(users), userId, MANAGER)
    {
      st := RemoveFromRole(MANAGER, userId);
    }

    method ListDeliveryCrew() returns (st: Status, names: set<string>)
      ensures st == Ok
      ensures names == MemberNames(users, DELIVERY_CREW)
    {
      st, names := ListMembers(DELIVERY_CREW);
    }

    method AddDeliveryCrew(userId: Option<UserId>) returns (st: Status)
      requires Valid()
      modifies this
      ensures Valid()
      ensures menuItems == old(menuItems) && orders == old(orders) && cart == old(cart)
      ensures userId.None? || userId.value !in old(users) ==>
        st == NotFound && users == old(users) && groups == old(groups)
      ensures userId.Some? && userId.value in old(users) ==>
        && st == Created
        && groups == old(groups) + {DELIVERY_CREW}
        && users == Join(old(users), userId.value, DELIVERY_CREW)
    {
      st := AddToRole(DELIVERY_CREW, userId);
    }

    method RemoveDeliveryCrew(userId: UserId) returns (st: Status)
      requires Valid()
      modifies this
      ensures Valid()
      ensures groups == old(groups) && menuItems == old(menuItems)
      ensures orders == old(orders) && cart == old(cart)
      ensures userId !in old(users) ==> st == NotFound && users == old(users)
      ensures userId in old(users) && DELIVERY_CREW !in groups ==> st == NotFound && users == old(users)
      ensures userId in old(users) && DELIVERY_CREW in groups ==>
        st == Ok && users == Leave(old(users), userId, DELIVERY_CREW)
    {
      st := RemoveFromRole(DELIVERY_CREW, userId);
    }

    // ----- group administration: the legacy single-role endpoint -----

    /**
     * The legacy POST-only `manager` view, as written: an empty username
     * makes the view return no response at all (500); an unknown username
     * gives 404; a missing Manager group raises an uncaught error (500);
     * otherwise the user joins Manager and the view still falls through to
     * its 400 "error" response.
     */
    method LegacyManager(username: string) returns (st: Status)
      requires Valid()
      modifies this
      ensures Valid()
      ensures groups == old(groups) && menuItems == old(menuItems)
      ensures orders == old(orders) && cart == old(cart)
      ensures username == "" ==> st == ServerError && users == old(users)
      ensures username != "" && !HasUsername(old(users), username) ==> st == NotFound && users == old(users)
      ensures username != "" && HasUsername(old(users), username) && MANAGER !in groups ==>
        st == ServerError && users == old(users)
      ensures username != "" && HasUsername(old(users), username) && MANAGER in groups ==>
        && st == BadRequest
        && exists id :: id in old(users) && old(users)[id].username == username && users == Join(old(users), id, MANAGER)
    {
      if username == "" {
        return ServerError;
      }
      if !HasUsername(users, username) {
        return NotFound;
      }
      var id :| id in users && users[id].username == username;
      if MANAGER !in groups {
        return ServerError;
      }
      users := Join(users, id, MANAGER);
      st := BadRequest;
    }
  }

  /**
   * A Manager deletes an existing order; afterwards retrieving that id gives
   * 404, whoever asks.
   */
  method DestroyThenRetrieve(s: Store, manager: UserId, anyone: UserId, id: OrderId)
    returns (deleted: Status, retrieved: Status)
    requires s.Valid() && id in s.orders && MANAGER in s.GroupsOf(manager)
    modifies s
    ensures deleted == NoContent && retrieved == NotFound
  {
    deleted := s.DestroyOrder(manager, id);
    var order;
    retrieved, order := s.RetrieveOrder(anyone, id);
  }

  /**
   * Adding a user to the Manager group twice leaves the store as the first
   * addition left it, and the second addition still answers 201.
   */
  method AddManagerTwice(s: Store, userId: UserId) returns (first: Status, second: Status)
    requires s.Valid() && userId in s.users
    modifies s
    ensures first == Created && second == Created
    ensures s.users == Join(old(s.users), userId, MANAGER)
    ensures s.groups == old(s.groups) + {MANAGER}
    ensures s.menuItems == old(s.menuItems) && s.orders == old(s.orders) && s.cart == old(s.cart)
  {
    first := s.AddManager(Some(userId));
    second := s.AddManager(Some(userId));
    JoinIsIdempotent(old(s.users), userId, MANAGER);
  }

  /**
   * Removing a Manager takes exactly that user's name out of the Manager
   * listing. The listing is a set of usernames, so this relies on the
   * store's invariant that usernames are unique.
   */
  method RemoveManagerThenList(s: Store, userId: UserId) returns (removed: Status, listed: Status, names: set<string>)
    requires s.Valid() && userId in s.users && MANAGER in s.groups
    modifies s
    ensures removed == Ok && listed == Ok
    ensures names == MemberNames(old(s.users), MANAGER) - {old(s.users)[userId].username}
  {
    removed := s.RemoveManager(userId);
    listed, names := s.ListManagers();
    MemberNamesAfterLeave(old(s.users), userId, MANAGER);
  }
}
