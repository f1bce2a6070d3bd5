# supli inventory core, in Dafny

A model of the core of **supli**, an office-supplies inventory and request application:

- Staff ask for supplies.
- Administrators approve or deny the requests, keep the stock, manage users and change a few system settings.
- Every change leaves an entry in the audit log.
- Low stock is announced on a real-time channel.

The model covers:

- **The server side.** The server actions (`createRequest`, `updateRequestStatus`, `createSupply`, `updateQuantity`, `updateSettings`, …) and the HTTP routes under `/api/requests`, `/api/supplies`, `/api/users` and `/api/admin/settings`. Also the dashboard aggregations and the Express authentication middleware.
- **The client side.** The parts that compute something: the requests table, the settings form, the user dialog and the user-management list.
- **The database seeder.**

How it is built:

- **Value level.** The store is a value, `Domain.Db`: the supplies, requests, users and settings tables, the audit log, and the notifications broadcast so far. Every operation is a function from a store to a store plus an answer.
- **Shared cores.** The part an action and its route share is one core function (`RequestFlow.UpdateStatusCore`, …). The action turns the core's outcome into `{ success, error }`; the route turns it into a status code.
- **`Inventory.Store`.** This class holds the same tables as fields. Its methods update them step by step, the way the handlers do. Each method is proved to reach exactly the state and answer that the value-level definition gives.
- **`Domain.Consistent`.** It states what the store keeps true:
  - rows are keyed by their id;
  - stock and thresholds are never negative;
  - every request asks for at least one unit;
  - a pending request's supply exists;
  - supply names, usernames and setting keys are unique.
- **`Domain.Evolves`.** It states how the store may change:
  - requests never disappear;
  - a request keeps its user, supply, quantity and creation time, and a decided request keeps its status;
  - the audit log and the notifications only grow;
  - once there is an administrator, one remains.
- **Invariants over any sequence of operations.** Every operation keeps `Consistent` and respects `Evolves`. `Trace.RunKeeps` extends this to any sequence of operations.

Things outside the program are inputs:

- new row ids and the current time;
- password hashing (`hash`) and token verification (`verify`);
- the random choices of the seeder (`draw`).

Two things the code does that a reader might expect otherwise:

- **Approval side effects.** Approving a request writes no low-stock audit entry and broadcasts no notification, even when the stock falls to or below the supply's threshold: neither `updateRequestStatus` (src/lib/actions/request.ts:77-154) nor `PUT /api/requests` (src/app/api/requests/route.ts:140-230) does so. The model's approval changes the stock, the status and one audit entry, nothing else.
- **Unused settings.** The maximum request quantity and the low-stock threshold settings are read by `getMaxRequestQuantity` and `getLowStockThreshold`. No operation consults them. Requests are limited only by the stock, and low stock is decided by each supply's own `minimumThreshold`.

## Model

| member | source | states |
|---|---|---|
| Domain.ParseRole | src/app/api/users/route.ts:10-14 | a role string is accepted exactly when it is `ADMIN` or `STAFF`, and then names that role |
| Domain.ParseStatus | src/app/api/requests/route.ts:24-32 | a status string is accepted exactly when it is `PENDING`, `APPROVED` or `DENIED`, and then names that status |
| Domain.IsLowStock | src/lib/actions/supply.ts:51 | a supply is low exactly when its stock is at or below its minimum threshold |
| RequestFlow.CreateRequestCore | src/lib/actions/request.ts:27-64 | refused as not found exactly when the supply is missing, as insufficient stock exactly when the quantity exceeds the stock; otherwise exactly one `PENDING` request for the caller is added with the audit entry "Created request for …", stock untouched; a refusal changes nothing |
| RequestFlow.RequestSchemaValid | src/lib/actions/request.ts:11-14 | a request body needs a non-empty supply id and a quantity of at least one |
| RequestFlow.CreateRequestAction | src/lib/actions/request.ts:18-75 | signed-in callers only; a quantity that is not a positive integer or an empty supply id gives schema issues; success exactly when the core succeeds, and then the store is the core's; a failure changes nothing |
| RequestFlow.PostRequest | src/app/api/requests/route.ts:69-137 | 401 without a session, 400 for a body failing the schema, 404 for a missing supply, 400 for insufficient stock, 201 exactly when the core succeeds; only 201 changes the store |
| RequestFlow.UpdateStatusCore | src/lib/actions/request.ts:84-146 | not found / already processed / insufficient stock exactly in those cases; success exactly for a pending request whose supply exists and, when approving, covers the quantity; approval lowers that supply's stock by the quantity and stock stays non-negative; denial leaves stock alone; one audit entry; a refusal changes nothing |
| RequestFlow.UpdateRequestStatusAction | src/lib/actions/request.ts:77-154 | administrators only; success exactly when the core succeeds, with the core's store; the core's refusals become the source's error messages |
| RequestFlow.PutRequest | src/app/api/requests/route.ts:140-230 | 401 for non-administrators, 400 without an id or with a status other than APPROVED/DENIED, 404 / 400 for the core's refusals, 200 exactly when the core succeeds; only 200 changes the store |
| RequestFlow.DecisionBodyValid | src/app/api/requests/route.ts:148-154 | a decision body needs an id and a status that is `APPROVED` or `DENIED` |
| RequestFlow.PendingSupplyExists | src/lib/actions/supply.ts:114-126 | in a consistent store, the supply of a pending request exists |
| RequestFlow.CreateRequestCoreKeeps | src/lib/actions/request.ts:43-64 | creating a request keeps the store consistent and is an allowed evolution |
| RequestFlow.UpdateStatusCoreKeeps | src/lib/actions/request.ts:104-146 | deciding a request keeps the store consistent (stock never negative) and only moves a request out of `PENDING` |
| RequestFlow.CreateRequestActionKeeps | src/lib/actions/request.ts:18-75 | the action keeps the store consistent and evolves it as allowed |
| RequestFlow.PostRequestKeeps | src/app/api/requests/route.ts:69-137 | the route keeps the store consistent and evolves it as allowed |
| RequestFlow.UpdateRequestStatusActionKeeps | src/lib/actions/request.ts:77-154 | the action keeps the store consistent and evolves it as allowed |
| RequestFlow.PutRequestKeeps | src/app/api/requests/route.ts:140-230 | the route keeps the store consistent and evolves it as allowed |
| RequestFlow.DecidedOnce | src/lib/actions/request.ts:97-102 | after a successful decision, any second decision of the same request is refused as already processed and changes nothing |
| SupplyFlow.LowStockNotice | src/lib/actions/supply.ts:19-29 | at most one notification, present exactly when stock is at or below the threshold, with the source's message |
| SupplyFlow.SupplySchemaValid | src/lib/actions/supply.ts:10-15 | a supply needs a non-empty name and description and a stock and threshold of zero or more |
| SupplyFlow.CreateSupplyCore | src/lib/actions/supply.ts:40-56 | succeeds exactly when the id is new and no other supply has the name; adds exactly that supply and the audit entry; otherwise a store error and no change |
| SupplyFlow.UpdateSupplyCore | src/lib/actions/supply.ts:75-92 | succeeds exactly when the supply exists and no other supply has the new name; replaces its fields, one audit entry; otherwise no change |
| SupplyFlow.DeleteSupplyCore | src/lib/actions/supply.ts:110-136 | refused exactly when a pending request refers to the supply; succeeds exactly when none does and the supply exists; removes only that supply and writes one audit entry |
| SupplyFlow.CreateSupplyAction | src/lib/actions/supply.ts:31-64 | administrators only; schema issues for an invalid form; on success the core's store plus the low-stock notice |
| SupplyFlow.UpdateSupplyAction | src/lib/actions/supply.ts:66-100 | administrators only; schema issues for an invalid form; on success the core's store plus the low-stock notice |
| SupplyFlow.DeleteSupplyAction | src/lib/actions/supply.ts:102-141 | administrators only; "Cannot delete supply with pending requests" when one is pending; success exactly when no request is pending and the supply exists |
| SupplyFlow.UpdateQuantityAction | src/lib/actions/supply.ts:143-185 | administrators only; a negative quantity and a missing supply are refused with no change; on success the stock is set, an audit entry is written, and when low a second audit entry and the notice follow |
| SupplyFlow.PostSupply | src/app/api/supplies/route.ts:40-74 | 401 / 400 / 500 / 201 in the source's order; 201 exactly when the core succeeds; only 201 changes the store |
| SupplyFlow.PutSupply | src/app/api/supplies/route.ts:77-121 | 401, then 400 without an id, then 400 for a body failing the schema; 200 exactly when the core succeeds |
| SupplyFlow.DeleteSupplyRoute | src/app/api/supplies/route.ts:124-176 | 401, 400 without an id, 400 while a request is pending; 200 exactly when the supply exists and nothing is pending |
| SupplyFlow.CreateSupplyCoreKeeps | src/lib/actions/supply.ts:40-56 | creating a supply keeps the store consistent and evolves it as allowed |
| SupplyFlow.UpdateSupplyCoreKeeps | src/lib/actions/supply.ts:75-92 | updating a supply keeps the store consistent and evolves it as allowed |
| SupplyFlow.DeleteSupplyCoreKeeps | src/lib/actions/supply.ts:110-136 | deleting a supply never strands a pending request, and evolves the store as allowed |
| SupplyFlow.UpdateQuantityKeeps | src/lib/actions/supply.ts:143-185 | setting the stock keeps the store consistent and evolves it as allowed |
| SupplyFlow.CreateSupplyActionKeeps | src/lib/actions/supply.ts:31-64 | the action keeps the store consistent and evolves it as allowed |
| SupplyFlow.UpdateSupplyActionKeeps | src/lib/actions/supply.ts:66-100 | the action keeps the store consistent and evolves it as allowed |
| SupplyFlow.DeleteSupplyActionKeeps | src/lib/actions/supply.ts:102-141 | the action keeps the store consistent and evolves it as allowed |
| SupplyFlow.PostSupplyKeeps | src/app/api/supplies/route.ts:40-74 | the route keeps the store consistent and evolves it as allowed |
| SupplyFlow.PutSupplyKeeps | src/app/api/supplies/route.ts:77-121 | the route keeps the store consistent and evolves it as allowed |
| SupplyFlow.DeleteSupplyRouteKeeps | src/app/api/supplies/route.ts:124-176 | the route keeps the store consistent and evolves it as allowed |
| UserFlow.PostUser | src/app/api/users/route.ts:52-111 | 401 for non-administrators, 400 for a body failing the schema or a taken username; 201 exactly when valid, the name is free and the id is new; the new user stores the hash of the password; only 201 changes the store |
| UserFlow.UserSchemaValid | src/app/api/users/route.ts:10-14 | a new user needs a username, a password of at least six characters and a known role |
| UserFlow.Changed | src/app/api/users/route.ts:149-163 | an update changes only the fields present; a non-empty password is replaced by its hash, an empty one keeps the old hash |
| UserFlow.PutUser | src/app/api/users/route.ts:114-189 | 401, 400 without an id, 400 when it would demote the only administrator; failure, with no change, for an unknown id, a bad role or a taken username; 200 exactly otherwise, changing only that user and adding one audit entry |
| UserFlow.DemotesLastAdmin | src/app/api/users/route.ts:132-146 | an update is refused when it sets the role to STAFF while the user is the only administrator |
| UserFlow.DeleteUser | src/app/api/users/route.ts:192-249 | 401, 400 without an id, 400 for the only administrator; 200 exactly when the user exists and is not the only administrator; removes only that user |
| UserFlow.PostUserKeeps | src/app/api/users/route.ts:52-111 | creating a user keeps usernames unique and never loses the administrator |
| UserFlow.PutUserKeeps | src/app/api/users/route.ts:132-146 | an update never leaves the system without an administrator once it had one |
| UserFlow.DeleteUserKeeps | src/app/api/users/route.ts:215-226 | a deletion never leaves the system without an administrator once it had one |
| Settings.SettingValue | src/lib/actions/settings.ts:8-18 | nothing exactly when no setting has the key, otherwise that setting's value |
| Settings.ShowAllRequests | src/lib/actions/settings.ts:83-86 | true exactly when the visibility setting exists with the value "true" |
| Settings.IntSettingDefault | src/lib/actions/settings.ts:89-98 | a missing or empty setting gives the default |
| Settings.IntSetting | src/lib/actions/settings.ts:89-98 | a missing or empty value gives the default; any other value is read with `parseInt` |
| Settings.IntSettingReadsBack | src/lib/actions/settings.ts:89-98 | a setting holding the decimal rendering of an integer reads back as that integer |
| Settings.IntSettingNotANumber | src/lib/actions/settings.ts:89-98 | a non-empty setting that does not start with a number reads as `NaN` |
| Settings.ApplyValuesSpec | src/lib/actions/settings.ts:55-64 | after the bulk update each setting holds the value of the last update naming it, or its old value; ids, keys and descriptions stay |
| Settings.ApplyValues | src/lib/actions/settings.ts:55-64 | the updates applied in order, each setting the value of the row with its id; the set of rows is unchanged |
| Settings.UpdateSettingsCore | src/lib/actions/settings.ts:55-72 | all updates or none: done exactly when every id exists; then the values as above plus one audit entry, otherwise no change |
| Settings.UpdateSettingsAction | src/lib/actions/settings.ts:40-80 | administrators only; success exactly when every id exists; any failure is "Failed to update settings" with no change |
| Settings.PutSettings | src/app/api/admin/settings/route.ts:41-83 | 401, 400 for a body failing the schema, 500 for an unknown id, 200 exactly otherwise; only 200 changes the store |
| Settings.UpdateSettingsCoreKeeps | src/lib/actions/settings.ts:55-72 | the bulk update keeps the store consistent and evolves it as allowed |
| Settings.UpdateSettingsActionKeeps | src/lib/actions/settings.ts:40-80 | the action keeps the store consistent and evolves it as allowed |
| Settings.PutSettingsKeeps | src/app/api/admin/settings/route.ts:41-83 | the route keeps the store consistent and evolves it as allowed |
| Text.ParseIntShowInt | src/lib/actions/settings.ts:91 | `parseInt` of an integer's decimal rendering gives the integer back |
| Text.ParseIntDigitPrefix | src/lib/actions/settings.ts:91 | `parseInt` reads a leading number and ignores what follows when that does not start with a digit |
| Text.ParseIntNoDigit | src/lib/actions/settings.ts:91 | `parseInt` of text that does not start with a sign, a blank or a digit is `NaN` |
| Text.ParseIntSkipsSpace | src/lib/actions/settings.ts:91 | a leading blank (any of the whitespace and line terminators JavaScript skips) does not change what `parseInt` reads |
| Text.LowerPointwise | src/components/admin/settings-form.tsx:79 | lower-casing maps each character on its own |
| Text.StrLeTotal | src/lib/actions/supply.ts:189-191 | the text order used by `orderBy` is total |
| Text.StrLeTransitive | src/lib/actions/supply.ts:189-191 | the text order used by `orderBy` is transitive |
| Trace.ApplyKeeps | src/lib/actions/request.ts:77-154 | every operation keeps the store consistent and evolves it as allowed |
| Trace.RunKeeps | src/app/api/users/route.ts:132-146 | any sequence of operations keeps the store consistent, never changes a decided request, only appends to the audit log and never loses the last administrator |
| Trace.EvolvesTransitive | src/lib/actions/request.ts:97-102 | allowed evolutions compose |
| Trace.DecisionIsFinal | src/lib/actions/request.ts:97-102 | after any sequence of operations a decided request is still there, unchanged |
| RequestQueries.OwnFilter | src/lib/actions/request.ts:163-168 | the action filters by the caller exactly for non-administrators while the visibility setting is off |
| RequestQueries.RouteFilter | src/app/api/requests/route.ts:25-55 | a non-empty status that is not a status name makes the store query fail; otherwise the status filter is the parsed status; non-administrators see their own requests unless visibility is on; administrators may filter by user |
| RequestQueries.StaffSeesOnlyOwn | src/app/api/requests/route.ts:25-40 | with visibility off, every request a staff member gets is their own |
| RequestQueries.RouteAgreesWithAction | src/app/api/requests/route.ts:25-40 | without query parameters the route selects what the action selects |
| RequestQueries.NewestFirstTotal | src/lib/actions/request.ts:170-189 | newest-first is a total order |
| RequestQueries.NewestFirst | src/lib/actions/request.ts:185-187 | requests are ordered by creation time, newest first |
| Inventory.ByNameTotal | src/lib/actions/supply.ts:189-191 | ordering supplies by name is total and transitive |
| Inventory.ByKeyTotal | src/lib/actions/settings.ts:27-31 | ordering settings by key is total and transitive |
| Inventory.ByUsernameTotal | src/app/api/users/route.ts:24-39 | ordering users by username is total and transitive |
| Inventory.Store.constructor | src/lib/actions/request.ts:27-64 | the store starts with the given tables |
| Inventory.Store.CreateRequestCore | src/lib/actions/request.ts:27-64 | the tables updated in place end as `RequestFlow.CreateRequestCore` prescribes, and stay consistent |
| Inventory.Store.CreateRequest | src/lib/actions/request.ts:18-75 | in place, as `RequestFlow.CreateRequestAction` |
| Inventory.Store.PostRequest | src/app/api/requests/route.ts:69-137 | in place, as `RequestFlow.PostRequest` |
| Inventory.Store.UpdateStatusCore | src/lib/actions/request.ts:84-146 | stock decremented, status overwritten and audit appended in place, ending as `RequestFlow.UpdateStatusCore` |
| Inventory.Store.UpdateRequestStatus | src/lib/actions/request.ts:77-154 | in place, as `RequestFlow.UpdateRequestStatusAction` |
| Inventory.Store.PutRequest | src/app/api/requests/route.ts:140-230 | in place, as `RequestFlow.PutRequest` |
| Inventory.Store.CreateSupplyCore | src/lib/actions/supply.ts:40-56 | in place, as `SupplyFlow.CreateSupplyCore` |
| Inventory.Store.UpdateSupplyCore | src/lib/actions/supply.ts:75-92 | in place, as `SupplyFlow.UpdateSupplyCore` |
| Inventory.Store.DeleteSupplyCore | src/lib/actions/supply.ts:110-136 | in place, as `SupplyFlow.DeleteSupplyCore` |
| Inventory.Store.NotifyLowInventory | src/lib/actions/supply.ts:19-29 | appends exactly the low-inventory notification and changes nothing else |
| Inventory.Store.CreateSupply | src/lib/actions/supply.ts:31-64 | in place, as `SupplyFlow.CreateSupplyAction` |
| Inventory.Store.UpdateSupply | src/lib/actions/supply.ts:66-100 | in place, as `SupplyFlow.UpdateSupplyAction` |
| Inventory.Store.DeleteSupply | src/lib/actions/supply.ts:102-141 | in place, as `SupplyFlow.DeleteSupplyAction` |
| Inventory.Store.UpdateQuantity | src/lib/actions/supply.ts:143-185 | in place, as `SupplyFlow.UpdateQuantityAction` |
| Inventory.Store.PostSupply | src/app/api/supplies/route.ts:40-74 | in place, as `SupplyFlow.PostSupply` |
| Inventory.Store.PutSupply | src/app/api/supplies/route.ts:77-121 | in place, as `SupplyFlow.PutSupply` |
| Inventory.Store.DeleteSupplyRoute | src/app/api/supplies/route.ts:124-176 | in place, as `SupplyFlow.DeleteSupplyRoute` |
| Inventory.Store.PostUser | src/app/api/users/route.ts:52-111 | in place, as `UserFlow.PostUser` |
| Inventory.Store.PutUser | src/app/api/users/route.ts:114-189 | in place, as `UserFlow.PutUser` |
| Inventory.Store.DeleteUser | src/app/api/users/route.ts:192-249 | in place, as `UserFlow.DeleteUser` |
| Inventory.Store.UpdateSettingsCore | src/lib/actions/settings.ts:55-72 | the updates applied one by one in a loop end where `Settings.UpdateSettingsCore` does, all or nothing |
| Inventory.Store.UpdateSettings | src/lib/actions/settings.ts:40-80 | in place, as `Settings.UpdateSettingsAction` |
| Inventory.Store.PutSettings | src/app/api/admin/settings/route.ts:41-83 | in place, as `Settings.PutSettings` |
| Inventory.Store.ListRequests | src/lib/actions/request.ts:170-189 | exactly the matching requests, each once, newest first |
| Inventory.Store.GetRequests | src/lib/actions/request.ts:156-195 | fails without a session; otherwise the requests the caller may see, each once, newest first |
| Inventory.Store.GetRequest | src/lib/actions/request.ts:197-235 | fails without a session; a request the caller may not see is reported as not found; otherwise the request |
| Inventory.Store.GetRequestsRoute | src/app/api/requests/route.ts:16-66 | 401 without a session, 500 for a status that is not a status name, otherwise 200 with exactly the selected requests, newest first |
| Inventory.Store.GetSupplies | src/lib/actions/supply.ts:187-199 | every supply once, by name |
| Inventory.Store.GetSuppliesRoute | src/app/api/supplies/route.ts:16-37 | 401 without a session, otherwise every supply by name |
| Inventory.Store.GetSupply | src/lib/actions/supply.ts:201-231 | a missing supply is "Supply not found"; otherwise the supply with at most five of its requests, each at most once, newest first, none older than one left out |
| Inventory.Store.CountRequestsOf | src/app/api/users/route.ts:30-36 | the number of requests the user made |
| Inventory.Store.GetUsers | src/app/api/users/route.ts:17-49 | 401 for non-administrators, otherwise every user once without the password, with their request count, by username |
| Inventory.Store.ListSettings | src/lib/actions/settings.ts:27-31 | every setting once, by key |
| Inventory.Store.GetAllSettings | src/lib/actions/settings.ts:20-38 | fails for non-administrators, otherwise every setting by key |
| Inventory.Store.GetSettingsRoute | src/app/api/admin/settings/route.ts:17-38 | 401 for non-administrators, otherwise every setting by key |
| Dashboard.CountsAddUp | src/lib/actions/admin.ts:57-76 | the approved, denied and pending counts add up to the number of requests |
| Dashboard.RequestsChartData | src/lib/actions/admin.ts:50-79 | the slices in order Approved, Denied, Pending with the source's colours, each present exactly when its count is positive |
| Dashboard.RequestsChartCoversAll | src/lib/actions/admin.ts:50-79 | the pie's values add up to the number of requests |
| Dashboard.BarOf | src/lib/actions/admin.ts:96-104 | a bar copies name, stock and threshold, and is Low exactly when stock is at or below the threshold |
| Dashboard.SupplyChartData | src/lib/actions/admin.ts:83-105 | at most ten bars, one per shown supply, in order |
| Dashboard.SupplyChartShowsLowest | src/lib/actions/admin.ts:84-94 | the bars ascend by stock, and no supply left out has less stock than one shown |
| Dashboard.BucketOf | src/lib/actions/admin.ts:32-45 | a month's bucket has its name and approved + denied + pending = total |
| Dashboard.OverviewData | src/lib/actions/admin.ts:32-47 | one bucket per month, in order, each adding up |
| Middleware.Exchange.AuthenticateToken | server/middleware/auth.ts:22-38 | 401 without a token, 403 for a token that does not verify, otherwise the payload is attached and `next` is called once |
| Middleware.Exchange.RequireRole | server/middleware/auth.ts:40-54 | 401 without a user, 403 for a role not listed, otherwise `next` is called |
| Middleware.Exchange.constructor | server/middleware/auth.ts:22-25 | an exchange starts with the request's token and user, no response sent and `next` not yet called |
| Middleware.Guard | server/middleware/auth.ts:22-54 | the handler is reached exactly when the token verifies and its role is listed; otherwise a response was sent |
| SettingsForm.Split | src/components/admin/settings-form.tsx:77-78 | splitting always gives at least one piece |
| SettingsForm.SplitFormatJoin | src/components/admin/settings-form.tsx:76-81 | split, format each word and join equals the character-by-character conversion |
| SettingsForm.ByCharPointwise | src/components/admin/settings-form.tsx:76-81 | each output character depends only on its input character and the one before |
| SettingsForm.FormatSettingName | src/components/admin/settings-form.tsx:76-81 | same length as the key; each underscore becomes a space; the first character of each word is kept and the rest lower-cased; no underscore remains |
| SettingsForm.SwitchValue | src/components/admin/settings-form.tsx:98-104 | the switch only ever writes "true" or "false" |
| SettingsForm.IsChecked | src/components/admin/settings-form.tsx:98-101 | the switch is on exactly when the stored value is "true" |
| SettingsForm.FormatEmptyKey | src/components/admin/settings-form.tsx:76-81 | an empty key gives an empty label |
| SettingsForm.SwitchRoundTrip | src/components/admin/settings-form.tsx:98-104 | the switch writes "true"/"false" and reads its own value back; any other stored value does not survive a round trip |
| SettingsForm.SwitchDrivesVisibility | src/components/admin/settings-form.tsx:98-104 | the value the switch writes turns visibility of all requests on or off accordingly |
| RequestsTable.ToggleRow | src/components/requests/requests-table.tsx:34-42 | the clicked id's membership flips, every other id's stays, and the old set is untouched |
| RequestsTable.ToggleTwice | src/components/requests/requests-table.tsx:34-42 | clicking a row twice restores the expanded rows |
| RequestsTable.ToggleCommutes | src/components/requests/requests-table.tsx:34-42 | clicks on two rows commute |
| RequestsTable.StatusColor | src/components/requests/requests-table.tsx:44-53 | green exactly for APPROVED, red exactly for DENIED, yellow otherwise |
| RequestsTable.ShowsActions | src/components/requests/requests-table.tsx:86-88 | the Actions menu is shown to administrators on pending rows only |
| RequestsTable.ActionsOnlyWhereDecidable | src/components/requests/requests-table.tsx:86-88 | Approve/Deny are shown to administrators exactly on the rows the status update would not refuse as already processed, never to staff |
| UserDialog.UpdateSchemaIgnoresPassword | src/components/admin/user-dialog.tsx:42-51 | as written, the password never affects whether the edit form validates |
| UserDialog.CreateSchemaValid | src/components/admin/user-dialog.tsx:35-39 | the add form needs a username, a password of at least six characters and a known role |
| UserDialog.UpdateSchemaAsWritten | src/components/admin/user-dialog.tsx:42-51 | the edit form as written: a username and a known role; any password, or none |
| UserDialog.UpdateSchemaValid | src/components/admin/user-dialog.tsx:42-51 | the edit form as its message means it: a username, a known role, and a password that is absent, blank or at least six characters |
| UserDialog.ShortPasswordPassesEdit | src/components/admin/user-dialog.tsx:42-51 | "abc" passes the edit schema as written but not as intended |
| UserDialog.UpdateSchemaPassword | src/components/admin/user-dialog.tsx:42-51 | the intended edit schema accepts a password exactly when it is absent, blank, or at least six characters |
| UserDialog.CreateImpliesUpdate | src/components/admin/user-dialog.tsx:35-51 | whatever the create form accepts, the edit form accepts |
| UserDialog.Defaults | src/components/admin/user-dialog.tsx:75-79 | a blank password, and the edited user's name and role, or an empty name and STAFF |
| UserDialog.DefaultsNeedPassword | src/components/admin/user-dialog.tsx:35-39 | the default values never pass the create schema |
| UserDialog.EditDefaultsValid | src/components/admin/user-dialog.tsx:75-92 | the defaults of an edit dialog validate when the user has a name |
| UserDialog.Payload | src/components/admin/user-dialog.tsx:99-109 | editing sends the user's id, username and role, and the password only when non-empty; adding passes the form values unchanged |
| UserDialog.Submit | src/components/admin/user-dialog.tsx:73-109 | with the corrected edit schema: something is submitted exactly when the dialog's schema accepts the values, and then it is the payload |
| UserDialog.SubmitAsWritten | src/components/admin/user-dialog.tsx:42-109 | with the edit schema as written: something is submitted exactly when that schema accepts the values, and then it is the payload |
| UserDialog.SubmitAsWrittenAdmitsMore | src/components/admin/user-dialog.tsx:42-51 | the dialog as written submits whatever the corrected one does, the same for adding a user, and also an edit with a non-blank password shorter than six characters, which the corrected one refuses |
| UserDialog.SubmittedPasswordLongEnough | src/components/admin/user-dialog.tsx:42-51 | with the intended schema every submitted password has at least six characters, and an added user always has one |
| UsersClient.AfterCreate | src/app/admin/users/users-client.tsx:61-67 | unchanged on failure; otherwise the earlier rows followed by the new user with no requests |
| UsersClient.AfterUpdate | src/app/admin/users/users-client.tsx:97-113 | unchanged on failure; otherwise same length and order, rows with the id take the new username and role and keep id, date and count, other rows stay |
| UsersClient.AfterDelete | src/app/admin/users/users-client.tsx:130-135 | unchanged on failure; otherwise exactly the rows with another id remain |
| UsersClient.AfterDeleteAppend | src/app/admin/users/users-client.tsx:135 | the rows that remain keep their order |
| UsersClient.AfterDeleteAbsent | src/app/admin/users/users-client.tsx:135 | deleting an id no row carries leaves the list as it is |
| UsersClient.AfterDeleteTwice | src/app/admin/users/users-client.tsx:135 | deleting the same id twice is deleting it once |
| UsersClient.HandleUpdate | src/app/admin/users/users-client.tsx:77-95 | nothing is sent without an id; otherwise id, username and role, and the password only when non-empty |
| UsersClient.HandleCreate | src/app/admin/users/users-client.tsx:53-59 | the submitted values are sent as they are; a missing password cannot pass the route's schema |
| UsersClient.HandleSubmit | src/app/admin/users/users-client.tsx:145-153 | an update exactly when the submission carries an id, a create otherwise |
| UsersClient.EditDialogUpdates | src/app/admin/users/users-client.tsx:145-153 | the edit dialog's submission becomes an update of that user, without a password exactly when the field was blank |
| UsersClient.AddDialogCreates | src/app/admin/users/users-client.tsx:145-153 | the add dialog's submission becomes a create the route's schema accepts |
| UsersClient.EditKeepsBlankPassword | src/app/admin/users/users-client.tsx:84-89 | end to end: a blank password in the edit dialog keeps the stored password; a non-blank one stores its hash |
| UsersClient.ShortPasswordStored | src/components/admin/user-dialog.tsx:42-51 | with the schema as written, a three-character password is submitted by the dialog, sent by the page and stored by the route; the corrected dialog submits nothing |
| UsersClient.UpdatedListShowsStore | src/app/admin/users/users-client.tsx:102-113 | after a successful update the list shows the stored username and role |
| Seed.Upsert | prisma/seed.ts:73-81 | a row with the key already there leaves the table unchanged; otherwise exactly the new row is added; no existing row is ever modified |
| Seed.UpsertAllKeepsRows | prisma/seed.ts:138-144 | seeding never changes a row that was there before |
| Seed.UpsertAllCovers | prisma/seed.ts:71-82 | after seeding every seed's key has a row |
| Seed.UpsertAllFails | prisma/seed.ts:71-82 | once one upsert of the seeding loop fails, the whole seeding fails |
| Seed.UpsertEach | prisma/seed.ts:100-111 | the upsert loop stops at the first failure and otherwise ends where the sequence of upserts does |
| Seed.DefaultUsersGiveAdmin | prisma/seed.ts:57-82 | seeding an empty user table gives an administrator named "admin" |
| Seed.SeedUsers | prisma/seed.ts:70-81 | the users are upserted by username; a new user gets the hash of the seed's password |
| Seed.FakeUsers | prisma/seed.ts:87-92 | `count` fake users (none for a non-positive count) with lower-cased names and the common password |
| Seed.FindIndex | prisma/seed.ts:97 | the first position with the key, or -1 when there is none |
| Seed.UniqueBy | prisma/seed.ts:180-183 | the elements whose key first occurs at their own position |
| Seed.FirstOccurrencesSpec | prisma/seed.ts:95-98 | the filter keeps only elements of the list, each key once, the first element of every key, and keeps them in the order of the list |
| Seed.FirstOccurrencesOrdered | prisma/seed.ts:95-98 | the kept elements are read from the list at strictly increasing positions |
| Seed.UniqueBySpec | prisma/seed.ts:180-183 | the unique filter yields a subsequence of the list (order kept) with distinct keys, drops no key, and adds nothing |
| Seed.FirstOccurrencesDistinct | prisma/seed.ts:180-183 | a list whose keys are already distinct passes unchanged |
| Seed.FakeSupplyName | prisma/seed.ts:169-173 | position `i` below fifteen is named `officeSupplies[i]`, later ones "adjective product" |
| Seed.FakeSupplies | prisma/seed.ts:169-177 | `count` supplies with those names, stock in [0, 100] and threshold in [5, 20] |
| Seed.OfficeSuppliesDistinct | prisma/seed.ts:150-166 | the fifteen office-supply names are distinct |
| Seed.FewFakeSuppliesAllKept | prisma/seed.ts:150-183 | up to fifteen fake supplies all survive the unique-name filter |
| Seed.SeedSupplies | prisma/seed.ts:138-144 | the supplies are upserted by name with the seed's fields |
| Seed.CreateFakeRequests | prisma/seed.ts:196-250 | nothing without users or supplies; otherwise the requests are exactly those the attempts generate, attempts continue while fewer than `count` requests exist and fewer than `count * 2` attempts were made, and stop at `count` requests or when the attempts run out |
| Seed.GeneratedSpec | prisma/seed.ts:214-238 | after the attempts, every drawn pair is taken by an existing or a generated request; every generated request is the request of some draw; no pair is generated twice or clashes with an existing one |
| Seed.CreateFakeRequestsSpec | prisma/seed.ts:196-250 | the requests made have known users and supplies, quantities in [1, 10], distinct new pairs, each comes from a draw, and every drawn pair is taken afterwards |
| Seed.RequestDrawn | prisma/seed.ts:215-234 | a draw's request carries the drawn pair and a quantity in [1, 10] |
| Seed.SortLogsSpec | prisma/seed.ts:276-277 | the audit entries are inserted in ascending timestamp order, and they are the generated ones |
| Seed.SortLogs | prisma/seed.ts:277 | the audit entries ordered by timestamp, oldest first |

## Left out

- Database and network I/O: Prisma is replaced by maps in `Db`. A Prisma exception on an unknown id or a duplicate unique column is one generic failure (`StoreError`, a 500, or the action's "Failed to …" message).
- Partial writes: only the settings updates (`updateSettings`, `PUT /api/admin/settings`) and the seeder's request insert use `$transaction`, and the settings handlers write their audit entry after it. Every changing handler is therefore a series of separate writes: `updateRequestStatus` and `PUT /api/requests` (stock, then status, then audit entry), `createRequest`, `createSupply`, `updateSupply`, `deleteSupply`, `updateQuantity`, the settings updates, and the `POST`, `PUT` and `DELETE` routes for requests, supplies and users. The model takes each as one atomic step: a failure after the first write (for example an audit insert refused by the database) leaves the earlier writes in place in the code, and the model does not capture that state.
- Unparsable request bodies: every route reads its body with `request.json()` inside its `try`; a body that is not JSON throws a `SyntaxError`, which the routes answer with 500. The model's missing body (`None`) stands only for a body failing the schema (400).
- Concurrency: the handlers run one at a time. Interleavings between awaits, and races between two requests for the same stock, are not modelled.
- The real-time transport: a low-inventory notification is recorded in `Db.notifications`. Delivery, socket set-up and the test-socket route are not modelled.
- Sessions, bcrypt, JWT: the session is a parameter, the hash is a function `hash`, and token verification is a function `verify`. Cookie parsing and secrets are not modelled.
- Dates: timestamps are integers. `getOverviewData` takes its six months as given `(name, start, end)` triples. The month arithmetic and `date-fns` formatting are not modelled.
- The data generator (faker): every draw is an input. Its number ranges are expressed by `%` on an arbitrary integer.
- `toLowerCase` is ASCII-only. Text order is by character code, not the database collation.
- ParseIntShowInt: `parseInt` returns a double, so numbers beyond 2^53 in magnitude come back rounded; the model's `parseInt` is exact for every integer.
- ParseIntDigitPrefix: as above, a digit run worth more than 2^53 is read exactly in the model and rounded in JavaScript.
- IntSettingReadsBack: as above, a stored integer beyond 2^53 in magnitude reads back exactly in the model and rounded in JavaScript.
- Referential actions of the database schema: prisma/schema.prisma is not part of this model. Deleting a user does not touch their requests or audit entries.
- `src/app/api/supplies/[id]/route.ts` and its PATCH are not part of this model.
- Joined fields in request rows (the supply's name, the requester's username) are not modelled. The rows are the stored requests.
- Fractional numbers: quantities are integers, whereas `z.number()` also accepts fractions.
- Middleware.Exchange.AuthenticateToken: `next()` throwing inside the `try` (which would turn into a 403) is not modelled.
- Settings.MaxRequestQuantity and Settings.LowStockThreshold have no contract of their own. Their behaviour is stated by `Settings.IntSettingDefault`, `Settings.IntSettingReadsBack` and `Settings.IntSettingNotANumber`. No operation reads them, as in the code.
- The seeder's `main`, `clearDatabase` and console output: the orchestration is I/O. The default supplies are seeded by `Seed.SeedSupplies` with the same upsert.
- Rendering: the components' markup, toasts, dialogs opening and closing, and `revalidatePath`.

## Findings

| source | as written | input that shows it | evidently intended | confidence | as-written member | corrected member |
|---|---|---|---|---|---|---|
| src/components/admin/user-dialog.tsx:42-51 | the edit schema accepts a password matching `z.string().optional()` or `z.string().min(6)`; the first alternative accepts every string, and `PUT /api/users` does not check the length either | editing a user with password "abc": the form validates, the page sends it, and the route stores its hash | a password given when editing has at least 6 characters ("at least 6 characters if provided"); blank means unchanged | medium, not executed | UsersClient.ShortPasswordStored | UserDialog.SubmittedPasswordLongEnough |
