/** Entities of the restaurant API's store and the outcomes of its views. */
module Domain {

  /** Primary keys of the user, order and menu-item tables. */
  type UserId = nat
  type OrderId = nat
  type MenuItemId = nat

  datatype Option<T> = None | Some(value: T)

  /** Group names exactly as the views spell them; they are compared verbatim. */
  const CUSTOMER: string := "Customer"
  const DELIVERY_CREW: string := "Delivery Crew"
  const MANAGER: string := "Manager"

  /** The HTTP status of a view's response. */
  datatype Status =
    | Ok           // 200
    | Created      // 201
    | NoContent    // 204
    | BadRequest   // 400
    | Forbidden    // 403
    | NotFound     // 404
    | ServerError  // 500: an exception the view does not catch

  datatype HttpMethod = GET | HEAD | OPTIONS | POST | PUT | PATCH | DELETE

  /** A row of the user table together with the names of the groups it belongs to. */
  datatype User = User(username: string, isStaff: bool, groups: set<string>)

  /** Request data or serialized columns: field name to raw value. */
  type Fields = map<string, string>

  /**
   * An order: its owning customer, the assigned delivery-crew user (nullable),
   * its free-form status, and the remaining columns, which no view names.
   */
  datatype Order = Order(user: UserId, deliveryCrew: Option<UserId>, status: string, rest: Fields)

  /**
   * The request data of a partial order update, one entry per order field:
   * `None` when the key is absent from the request.
   */
  datatype OrderPatch = OrderPatch(
    user: Option<UserId>,
    deliveryCrew: Option<Option<UserId>>,
    status: Option<string>,
    rest: Fields)

  /** A cart line: its owner and the line's own columns (menu item, quantity, prices). */
  datatype CartLine = CartLine(user: UserId, fields: Fields)

  datatype MenuItem = MenuItem(fields: Fields)
}
