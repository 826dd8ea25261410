# Little Lemon API: role-based access and state changes, in Dafny

This project models the request-handling core of the Little Lemon restaurant
API (`LittleLemonAPI/views.py`): who may list, retrieve, update or delete
orders, how each user's cart is scoped, how the menu is gated, and how users
are added to and removed from the `Customer`, `Delivery Crew` and `Manager`
groups. The database is replaced by an in-memory store, the class
`Views.Store`. Its fields are:

- `users`: the user table, each row with its username, admin bit (`is_staff`) and group names;
- `groups`: the group table;
- `menuItems`: the menu;
- `orders`: order id to order;
- `cart`: the cart table as a sequence of lines.

Each view is a method of `Store`. It returns the HTTP status, and updates
the store in place where the view does. The menu, order and cart views take
the requesting user's id and the request data. The group-administration views
(`AddToGroup`, `RemoveFromGroup`, `ListManagers`, `AddManager`,
`RemoveManager`, `ListDeliveryCrew`, `AddDeliveryCrew`, `RemoveDeliveryCrew`
and `LegacyManager`) take no requester, because the source never looks at one
beyond authentication; they take only the user id, group name or username the
request carries. The near-duplicate Manager and Delivery Crew endpoints share
their bodies: `ListMembers`, `AddToRole` and `RemoveFromRole` hold the logic,
parameterised by the group name, and the six endpoint methods call them.

Modules:

- `Domain` (domain.dfy): the entities, the response statuses and the three group names, spelled exactly as the views spell them.
- `Policy` (policy.dfy): the pure access decisions. These are the menu and order permission gates, the order-list scope, who may retrieve an order, and the field-level effect of a Manager's partial update.
- `Cart` (cart.dfy): the two owner filters on the cart table (one user's lines, everybody else's lines) and their lemmas.
- `Membership` (membership.dfy): joining and leaving a group, the usernames of a group's members, and their lemmas.
- `Views` (views.dfy): the `Store` class with one method per view, and three client methods that chain views.

Where the code departs from the API's documented design, the model follows the code:

- The Manager and Delivery Crew endpoints (`UserGroupManagementViewSet`) require only authentication, not the admin bit.
- The generic `add_to_group` does not create a missing group. It looks the group up with a plain `get`, so a missing group is reported as 400 by the catch-all handler, not 404.
- The legacy `manager` view adds the user to `Manager` and then answers 400.

## Model

| member | source | states |
|---|---|---|
| `Policy.MenuGate` | LittleLemonAPI/views.py:73-76 | POST, PUT, PATCH and DELETE on menu items pass only for a requester with the admin bit. Every other method passes for any authenticated requester, whatever their groups. An anonymous requester never passes. |
| `Policy.OrderGate` | LittleLemonAPI/views.py:162-165 | The order gate passes exactly when the requester is authenticated, for every HTTP method. |
| `Policy.VisibleOrders` | LittleLemonAPI/views.py:167-175 | A Customer sees exactly their own orders. Otherwise a Delivery Crew member sees exactly the orders assigned to them. Otherwise a Manager sees all orders. Anyone else sees nothing. Shown orders are unaltered. |
| `Policy.ListedOrdersAreRetrievable` | LittleLemonAPI/views.py:167-184 | Every order that a list shows to a requester can also be retrieved by that requester. |
| `Policy.ListIsNotUnionOfRoles` | LittleLemonAPI/views.py:167-181 | A requester in both Customer and Manager can retrieve another user's order but does not see it in the list. The list takes the first matching role, not a union of roles. |
| `Policy.ApplyPatch` | LittleLemonAPI/views.py:189-191 | A Manager's validated partial update gives every supplied field its supplied value and leaves every omitted field unchanged (`PatchedFrom`). |
| `Policy.PatchedFromIsUnique` | LittleLemonAPI/views.py:189-191 | Any order that agrees with the patch field by field is the one `ApplyPatch` produces, so the field-wise description determines the update. |
| `Policy.ApplyPatchIdempotent` | LittleLemonAPI/views.py:189-191 | Applying the same partial update twice gives the same order as applying it once. |
| `Policy.EmptyPatchIsIdentity` | LittleLemonAPI/views.py:189-191 | A partial update that supplies no field leaves the order unchanged. |
| `Policy.StatusPatchIsStatusWrite` | LittleLemonAPI/views.py:186-197 | A Manager's update that supplies only `status` has the same effect as the Delivery Crew's verbatim status write. |
| `Cart.LinesOf` | LittleLemonAPI/views.py:141-144 | The listing holds only lines owned by the user. It holds every such line of the table, and nothing that is not in the table. |
| `Cart.LinesNotOf` | LittleLemonAPI/views.py:153-155 | What a clear leaves holds no line of the user. It keeps every other user's line, and adds nothing that was not in the table. |
| `Cart.OwnerSplitIsPartition` | LittleLemonAPI/views.py:141-155 | The user's lines and the lines a clear keeps together make up the whole table, copies counted. |
| `Cart.LinesOfAppend` | LittleLemonAPI/views.py:141-150 | Filtering by owner distributes over concatenating two tables. |
| `Cart.AppendedLineIsListed` | LittleLemonAPI/views.py:141-150 | After a line is appended, its owner's listing gains exactly that line at the end. Every other user's listing is unchanged. |
| `Cart.ClearEmptiesOwnListing` | LittleLemonAPI/views.py:153-155 | After a user's cart is cleared, that user's listing is empty. |
| `Cart.ClearKeepsOtherListings` | LittleLemonAPI/views.py:153-155 | Clearing one user's cart leaves every other user's listing as it was, order included. |
| `Cart.ClearIsIdempotent` | LittleLemonAPI/views.py:153-155 | Clearing twice gives the same table as clearing once. |
| `Cart.ClearWithoutLinesIsNoOp` | LittleLemonAPI/views.py:153-155 | Clearing the cart of a user who has no line leaves the table unchanged. |
| `Membership.Join` | LittleLemonAPI/views.py:96 | After the add, the user is a member of the group. Their other groups, username and admin bit are unchanged, and so is every other user. |
| `Membership.Leave` | LittleLemonAPI/views.py:105 | After the remove, the user is not a member of the group. Their other groups, username and admin bit are unchanged, and so is every other user. |
| `Membership.MemberNames` | LittleLemonAPI/views.py:87-89 | The listing holds the username of every member of the group, and only members' usernames. |
| `Membership.JoinMemberIsNoOp` | LittleLemonAPI/views.py:91-99 | Adding a user who is already a member changes nothing. |
| `Membership.JoinIsIdempotent` | LittleLemonAPI/views.py:116-124 | Adding the same user to the same group twice is the same as adding once. |
| `Membership.LeaveNonMemberIsNoOp` | LittleLemonAPI/views.py:101-110 | Removing a user who is not a member changes nothing. |
| `Membership.LeaveUndoesJoin` | LittleLemonAPI/views.py:126-135 | Removing a user who was just added, and was not a member before, restores the user table. |
| `Membership.MemberNamesAfterJoin` | LittleLemonAPI/views.py:112-124 | After an add, the group's member listing is the old listing plus the added user's name. |
| `Membership.MemberNamesAfterLeave` | LittleLemonAPI/views.py:126-135 | With unique usernames, after a remove the group's member listing is the old listing minus the removed user's name. |
| `Views.Store.ListMenuItems` | LittleLemonAPI/views.py:78-81 | The response is 200 with the whole menu exactly when the requester holds one of the three business roles. Otherwise it is 403 with nothing. |
| `Views.Store.ListOrders` | LittleLemonAPI/views.py:167-177 | The response is 403 exactly when the requester holds no business role, and 200 otherwise. The body is the `VisibleOrders` scope. The store is unchanged. |
| `Views.Store.RetrieveOrder` | LittleLemonAPI/views.py:179-184 | A missing id gives 404. Otherwise the response is 200 with the order exactly when the requester is its owner, its assignee or a Manager, and 403 otherwise. The store is unchanged. |
| `Views.Store.PartialUpdateOrder` | LittleLemonAPI/views.py:186-200 | A missing id gives 404. A Manager gets 200 and the patched order if the serializer accepts the patch, or 400 and no change. Otherwise a Delivery Crew member with a `status` key gets 200 and that order's status set verbatim, assigned to them or not. Without the key they get 403. Anyone else gets 403. Nothing else in the store changes. |
| `Views.Store.DestroyOrder` | LittleLemonAPI/views.py:202-207 | A missing id gives 404. A Manager gets 204 and exactly that order is removed. Anyone else gets 403 and no change. |
| `Views.Store.ListCartItems` | LittleLemonAPI/views.py:141-144 | The response is 200 with exactly the requester's lines (`LinesOf`). |
| `Views.Store.AddToCart` | LittleLemonAPI/views.py:146-151 | Valid data gives 201 and appends one line whose owner is the requester, whatever `user` the data names. Invalid data gives 400 and no change. |
| `Views.Store.ClearCart` | LittleLemonAPI/views.py:153-155 | The response is always 204, and the cart becomes `LinesNotOf` the requester: only the requester's lines go. |
| `Views.Store.AddToGroup` | LittleLemonAPI/views.py:23-35 | An empty name gives 400 before any lookup. An unknown user gives 404. A missing group gives 400, and the group is not created. Otherwise the user joins the group and the response is 200. |
| `Views.Store.RemoveFromGroup` | LittleLemonAPI/views.py:38-53 | An empty name gives 400. An unknown user gives 404. A missing group gives 404. Otherwise the user leaves the group and the response is 200. |
| `Views.Store.ListManagers` | LittleLemonAPI/views.py:87-89 | The response is 200 with the usernames of the Manager group's members. |
| `Views.Store.AddManager` | LittleLemonAPI/views.py:91-99 | An absent or unknown `user_id` gives 404 and no change. Otherwise the Manager group is created if absent, the user joins it, and the response is 201. |
| `Views.Store.RemoveManager` | LittleLemonAPI/views.py:101-110 | An unknown user gives 404. A missing Manager group gives 404. Otherwise the user leaves Manager and the response is 200. |
| `Views.Store.ListDeliveryCrew` | LittleLemonAPI/views.py:112-114 | The response is 200 with the usernames of the Delivery Crew group's members. |
| `Views.Store.AddDeliveryCrew` | LittleLemonAPI/views.py:116-124 | An absent or unknown `user_id` gives 404 and no change. Otherwise the Delivery Crew group is created if absent, the user joins it, and the response is 201. |
| `Views.Store.RemoveDeliveryCrew` | LittleLemonAPI/views.py:126-135 | An unknown user gives 404. A missing Delivery Crew group gives 404. Otherwise the user leaves the group and the response is 200. |
| `Views.Store.LegacyManager` | LittleLemonAPI/views.py:55-67 | An empty username gives 500, because the view returns no response. An unknown username gives 404. A missing Manager group gives 500. Otherwise the user joins Manager and the response is still 400. |
| `Views.DestroyThenRetrieve` | LittleLemonAPI/views.py:179-207 | After a Manager deletes an existing order (204), retrieving that id gives 404 to anyone. |
| `Views.AddManagerTwice` | LittleLemonAPI/views.py:91-99 | Adding the same user to Manager twice answers 201 both times and leaves the store as a single add does. |
| `Views.RemoveManagerThenList` | LittleLemonAPI/views.py:87-110 | After a Manager is removed (200), the Manager listing (200) is the old listing minus exactly that user's name. This relies on the store's invariant that usernames are unique. |

## Left out

- URL routing and the authentication endpoints (`LittleLemonAPI/urls.py`) are not modelled. The route `users/<int:userid>/groups/` names its id `userid` while `add_to_group` and `remove_from_group` take `pk`; the model passes the id directly.
- Authentication is assumed: every view receives an authenticated requester's id. The admin gate on `UserGroupViewSet` and on the legacy view is framework configuration and is not modelled. The views are modelled for a requester who has passed it.
- Serializer internals are not modelled. `is_valid()` is a function parameter (`isValid`) on the request data. A stored cart line keeps the data minus its `user` key, and the serializer's field selection is not modelled. Response bodies other than the data read back (messages, error maps) are not modelled.
- The order columns that no view names (total, date and so on) are one field-to-value map, `Order.rest`. The model of the order table is not part of this project, and neither are `OrderItem` rows or the cascading delete of an order's items.
- Inherited `ModelViewSet` actions are not modelled: order create and full update, and menu-item retrieve, create, update and destroy. Only the gates in front of them are modelled (`MenuGate`, `OrderGate`).
- `IsManager` and `IsDeliveryCrew` (views.py:11-17) are not modelled, because no view uses them.
- A missing `groupname` or `username` key raises an unhandled error in the source. The model takes the value as a parameter, so the key is always present.
- A non-integer `user_id` raises an unhandled error and is not modelled. The id is an `Option<nat>`.
- Transactions, atomicity and concurrent requests are not modelled. Each method runs alone.
- Views.Store.ListOrders: the body is a map from id to order, so the row order of the response is not modelled.
- Views.Store.ListManagers: the body is a set of usernames, so the row order of the response is not modelled.
- Views.Store.ListDeliveryCrew: the body is a set of usernames, so the row order of the response is not modelled.
- Views.Store.ListMenuItems: the body is the menu map, so the row order of the response is not modelled.
