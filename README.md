# Car-rental contracts: a Dafny model

This project models the core of a car-rental back office: a FastAPI backend over a
PostgreSQL database, and the browser scripts of its contract pages. Each source file of the
core becomes one Dafny module (file in parentheses):

- `Models` (models.dfy) holds the database state as a value `Db`:
  - contracts, customers and cars as maps from primary keys;
  - car lines and payments, with the cascades the ORM declares;
  - surcharge lines keyed by (contract, surcharge);
  - append-only delivery and return receipts.

  The declared constraints form the predicate `SchemaHolds`: the date-range check, the column
  widths, the fixed-point money range, the 32-bit range of Integer columns, the foreign
  keys and the composite key. PostgreSQL refuses to commit a state that breaks it.
- `Contracts` (contracts.dfy) holds the contract router:
  - each handler is a method of the class `ContractSession`, whose field `db` is the
    database;
  - the method builds a working copy step by step, with loops over contracts and lines as
    the source has them, and then commits;
  - `Commit` succeeds exactly when `SchemaHolds` holds of the working copy. Otherwise the
    database is unchanged and the caller gets an error, which models the single
    `db.commit()` of each handler. The error is a data error when a value does not fit
    its column, and an integrity error when a key or a check constraint is broken;
  - every handler's new state is a pure specification function (`CreateSpec`,
    `UpdateSpec`, …), and the lemmas about the handlers are stated over those functions.
- `Schemas` (schemas.dfy) models the request payloads: which fields are required and which
  are optional, and the defaults.
- `Roles`, `Branches`, `CarBrands` and `Users` (roles.dfy, branches.dfy, carbrands.dfy,
  users.dfy) are tables whose trimmed names are unique. Each is a class over a `map` of rows.
  Its invariant is that the stored names are trimmed and pairwise distinct and that every
  key lies below the next free id.
- `Customers` and `Employees` (customers.dfy, employees.dfy) are tables with soft delete and
  partial update.
- `Cars` (cars.dfy) models the car listing, with its clamped pagination and rate defaults.
- `Tables` (tables.dfy) holds the shared behaviour of the routers:
  - `ORDER BY id OFFSET skip LIMIT limit`, with a negative offset or limit refused by the
    database;
  - the trimmed-name uniqueness invariant;
  - the "assign when given" partial update.
- The front end:
  - `ContractForm` (contract_form.dfy): number parsing, day counting, the summary totals and
    the payload built on confirm;
  - `Surcharges` (surcharges.dfy): the surcharge list, as a class;
  - `Vehicles` (vehicles.dfy): the vehicle filter and the selection state, as a class;
  - `Api` (api.dfy): the API client's base URL, query string and URL building;
  - `MockContracts` (app.dfy): the mock contract board, as a class.
- `JsNumbers` (jsnumbers.dfy) models JavaScript numbers as `NaN` or a finite exact real, with
  the `||` default, `Math.max` and multiplication.
- `Common` (common.dfy) holds shared helpers: ASCII trimming and lower-casing, filtering and
  searching sequences, sorted keys, pages and decimal rendering.

## Model

| member | source | states |
|---|---|---|
| Models.WithoutContractCascade | backend/app/models.py:28-31 | Deleting a contract removes its car lines and payments and keeps every other row of those tables in order. Surcharge lines, receipts, cars and customers are untouched. |
| Models.DeleteWithDependentsBreaksKeys | backend/app/models.py:107-136 | A contract that still has a surcharge line, a delivery or a return receipt cannot be deleted: the orphaned row breaks a foreign key, so the commit is refused. |
| Models.DeleteWithoutDependentsKeepsSchema | backend/app/models.py:18-38 | Without such rows, deleting a contract from a consistent database leaves it consistent. |
| Models.WithoutCustomerCascade | backend/app/models.py:55 | Deleting a customer removes all of its contracts and exactly their car lines and payments, and keeps the other contracts unchanged. |
| Contracts.Commit | backend/app/routers/contracts.py:115 | A commit succeeds if and only if the working state satisfies the schema. Otherwise the error is a data error exactly when some value does not fit its column, and an integrity error exactly when every value fits but a key or check constraint is broken. |
| Contracts.WithStatus | backend/app/routers/contracts.py:97-102 | Exactly the existing cars among the given ids get the new status. Every other car is unchanged and no car is added. |
| Contracts.CarLines | backend/app/routers/contracts.py:91-96 | One car line per payload item, in order, each copying the item's car id and amount; the item's daily rate is not stored. |
| Contracts.MarkCars | backend/app/routers/contracts.py:160-164 | The loop over a contract's car lines gives each existing attached car the status, and leaves the other cars as they were. |
| Contracts.AddCarLines | backend/app/routers/contracts.py:91-102 | The create loop appends the contract's car lines and marks each referenced existing car "Rented". Unknown car ids are skipped. |
| Contracts.AddSurchargeLines | backend/app/routers/contracts.py:105-113 | The create loop adds one surcharge row per payload item. A missing surcharge id becomes 0. |
| Contracts.HealAll | backend/app/routers/contracts.py:63-71 | The listing loop visits every contract once and heals it. It reports a change exactly when some contract had a return receipt and was not completed. |
| Contracts.HealedKeepsValid | backend/app/routers/contracts.py:63-71 | Healing keeps the schema and the key invariant, so the listing's commit cannot fail. |
| Contracts.HealedUnchanged | backend/app/routers/contracts.py:70-71 | When no contract needs healing, the listing leaves the database as it is and does not commit. |
| Contracts.HealedExactly | backend/app/routers/contracts.py:64-69 | Healing changes exactly the contracts that have a return receipt and whose lower-cased status is not "completed", and sets them to "Completed". No other field or table changes. |
| Contracts.HealedIdempotent | backend/app/routers/contracts.py:63-71 | After healing no contract needs healing, and healing twice equals healing once. |
| Contracts.CreateSpec | backend/app/routers/contracts.py:75-117 | A successful create returns the next id, stores the contract under it and yields a consistent database. |
| Contracts.CreateStoresContract | backend/app/routers/contracts.py:78-89 | Create stores customer, dates, total amount, status and notes exactly as given under a fresh id. Payments, receipts, customers and surcharges are untouched. |
| Contracts.CreateStoresCars | backend/app/routers/contracts.py:91-102 | One car line per payload car, carrying its car id and its amount verbatim. Every referenced car becomes "Rented". Other cars and other contracts' lines are unchanged. |
| Contracts.CreateStoresSurcharges | backend/app/routers/contracts.py:105-113 | One surcharge row per payload item, keyed by the contract and the surcharge id (0 when missing), with unit price and quantity copied. Existing rows are kept. |
| Contracts.NewLinesOf | backend/app/routers/contracts.py:91-102 | The new contract's car lines are exactly the payload's lines; other contracts' lines are unchanged. |
| Contracts.CreateReadsBackCars | backend/app/routers/contracts.py:32-36 | Reading the new contract back gives the payload's fields and its cars, each with the daily rate of the stored car. |
| Contracts.SurchargeRowsContent | backend/app/routers/contracts.py:105-113 | The surcharge rows of a create are exactly the payload's keys. Each has the item's price and quantity when the keys are distinct. |
| Contracts.CreateReadsBackSurcharges | backend/app/routers/contracts.py:37-44 | Reading the new contract back gives the payload's surcharges, with a missing id read back as 0. |
| Contracts.CreateRefusals | backend/app/models.py:33-38 | When every value fits its column, create fails with an integrity error if the end date is before the start date, if the customer or a car is unknown, or if two items share a surcharge id. When some value does not fit, it fails with a data error. |
| Contracts.UpdateSpec | backend/app/routers/contracts.py:128-179 | An unknown id gives not-found. A successful update keeps the contract and yields a consistent database. |
| Contracts.UpdatePatchesGivenFields | backend/app/routers/contracts.py:134-145 | Update overwrites only the fields given in the payload and keeps every other contract. Car lines, surcharges, payments, deliveries and customers are unchanged. |
| Contracts.UpdateSideEffects | backend/app/routers/contracts.py:147-174 | Completion keywords set "Completed", make the attached cars "Ready" and add a return receipt, dated with the updated end date, only if none existed. Cancel keywords set "Canceled" and make the attached cars "Ready" without a receipt. Any other status leaves cars and receipts alone. |
| Contracts.StatusKeywords | backend/app/routers/contracts.py:147-167 | "DONE" and "Returned" complete and "CANCELLED" and "canceled" cancel, case-insensitively. " done", "" and a missing status are stored verbatim. |
| Contracts.UpdateCompleteTwice | backend/app/routers/contracts.py:148-166 | Repeating a completing update changes nothing more: no second receipt is added. |
| Contracts.ApplyEffects | backend/app/routers/contracts.py:147-174 | The status transition step computes the transition table's effect on the working copy. |
| Contracts.EffectsKeepKeys | backend/app/routers/contracts.py:147-174 | The transition keeps the set of contracts and every key below the next id. |
| Contracts.AddPaymentSpec | backend/app/routers/contracts.py:182-194 | A negative amount is a validation error and an unknown contract is not-found. A successful payment returns the next id and yields a consistent database. |
| Contracts.AddPaymentSucceedsWhen | backend/app/routers/contracts.py:182-194 | A payment is accepted if and only if the amount is in range and not negative, the contract exists and the method (default "Cash") fits 100 characters. |
| Contracts.AddPaymentAppends | backend/app/routers/contracts.py:191-194 | A payment only appends one row, with a fresh id, the amount and the method (default "Cash"). Nothing else changes. |
| Contracts.AppendPaymentKeepsSchema | backend/app/models.py:84-95 | Appending a payment row that fits its columns to an existing contract keeps the schema. |
| Contracts.AppendedPaymentFits | backend/app/models.py:84-95 | If the database with the new payment is consistent, the payment fits its columns. |
| Contracts.CreateDeliverySpec | backend/app/routers/contracts.py:197-211 | An unknown contract is not-found. A successful delivery returns the next id and yields a consistent database. |
| Contracts.CreateDeliveryOutcome | backend/app/routers/contracts.py:197-211 | A delivery succeeds if and only if the contract exists, both employee ids fit an Integer column and the texts fit 200 characters. For an existing contract whose values do not fit, it fails with a data error. It only appends that receipt. |
| Contracts.CreateReturnSpec | backend/app/routers/contracts.py:214-236 | An unknown contract is not-found. A successful return returns the next id and yields a consistent database. |
| Contracts.ReturnStage | backend/app/routers/contracts.py:218-233 | The return handler's steps build exactly the return's working state. |
| Contracts.ReturnWorkKeepsKeys | backend/app/routers/contracts.py:218-233 | The return's working state keeps every key below the next id. |
| Contracts.CreateReturnAppends | backend/app/routers/contracts.py:214-236 | A return always appends a receipt with a fresh id, even when one exists, so the count grows by one. It sets the contract to "Completed" and makes the attached cars "Ready". Nothing else changes. |
| Contracts.CompletionPathsAgree | backend/app/routers/contracts.py:148-166 | For a contract with no receipt, completing by update and by return give the same contracts and cars and exactly one receipt. |
| Contracts.DeleteSpec | backend/app/routers/contracts.py:239-246 | An unknown contract is not-found. A successful delete yields a consistent database. |
| Contracts.DeleteOutcome | backend/app/routers/contracts.py:239-246 | Delete succeeds if and only if the contract exists and has no surcharge lines or receipts. It then removes the contract with its cascade. |
| Contracts.ContractSession.constructor | backend/app/routers/contracts.py:59-62 | A session starts on a consistent database. |
| Contracts.ContractSession.ListContracts | backend/app/routers/contracts.py:59-72 | The database becomes its healed form. One view per contract, with no duplicates, each the read of that contract. |
| Contracts.ContractSession.CreateContract | backend/app/routers/contracts.py:75-117 | The database and the result follow `CreateSpec`, and the invariant is kept. |
| Contracts.ContractSession.GetContract | backend/app/routers/contracts.py:120-125 | The read of the contract, or not-found for an unknown id. |
| Contracts.ContractSession.UpdateContract | backend/app/routers/contracts.py:128-179 | The database and the result follow `UpdateSpec`, and the invariant is kept. |
| Contracts.ContractSession.AddPayment | backend/app/routers/contracts.py:182-194 | The database and the result follow `AddPaymentSpec`, and the invariant is kept. |
| Contracts.ContractSession.CreateDelivery | backend/app/routers/contracts.py:197-211 | The database and the result follow `CreateDeliverySpec`, and the invariant is kept. |
| Contracts.ContractSession.CreateReturn | backend/app/routers/contracts.py:214-236 | The database and the result follow `CreateReturnSpec`, and the invariant is kept. |
| Contracts.ContractSession.DeleteContract | backend/app/routers/contracts.py:239-246 | The database and the result follow `DeleteSpec`, and the invariant is kept. |
| Schemas.Required | backend/app/schemas/contract.py:9 | A required field is accepted exactly when given. A missing one is a validation error. |
| Schemas.Optional | backend/app/schemas/contract.py:10-14 | An optional field is present exactly when given. |
| Schemas.ParseCarItem | backend/app/schemas/contract.py:19-24 | A car item is valid exactly when car_id is given; daily_rate and amount are optional. |
| Schemas.ParseSurchargeItem | backend/app/schemas/contract.py:27-32 | A surcharge item is valid exactly when unit price and quantity are given; the surcharge id is optional. |
| Schemas.ParseCarItems | backend/app/schemas/contract.py:36 | A car list is valid exactly when every item is, and it parses item by item in order. |
| Schemas.ParseSurchargeItems | backend/app/schemas/contract.py:37 | A surcharge list is valid exactly when every item is, and it parses item by item in order. |
| Schemas.ListOrEmpty | backend/app/schemas/contract.py:35-37 | A missing list defaults to empty. An explicit null is refused. |
| Schemas.ParseContractCreate | backend/app/schemas/contract.py:8-16 | A create payload is valid exactly when customer_id is given and the item lists are valid. The other fields are optional: each is its given value or None. The cars and surcharges are the parsed item lists, item by item, and [] when missing. |
| Schemas.MinimalCreate | backend/app/schemas/contract.py:35-37 | A payload with only customer_id is valid, with empty car and surcharge lists. |
| Schemas.ParseContractUpdate | backend/app/schemas/contract.py:59-67 | Every update field is optional: it is present exactly when given, and then holds the given value. |
| Schemas.EmptyUpdateSetsNothing | backend/app/schemas/contract.py:59-67 | An empty update payload sets no field. |
| Tables.OrderedIds | backend/app/routers/role.py:46 | The kept ids in ascending key order, each exactly once. |
| Tables.OrderedAll | backend/app/routers/role.py:46 | Keeping every row orders all the keys. |
| Tables.Fetch | backend/app/routers/role.py:46 | A negative offset or limit is refused by the database. Otherwise at most `limit` rows are returned. |
| Tables.FetchKept | backend/app/routers/role.py:46 | The fetched rows are kept rows, stored under their ids, in ascending id order. |
| Tables.FetchWindow | backend/app/routers/role.py:46 | The fetch is the window of the ordered kept ids that starts at the offset. |
| Tables.Assigned | backend/app/routers/customer.py:103-114 | A field given in the update replaces the current value; a missing one keeps it. |
| Tables.InsertKeepsUnique | backend/app/routers/role.py:61-66 | Inserting a trimmed name that no row holds keeps the names unique. |
| Tables.RenameKeepsUnique | backend/app/routers/role.py:78-88 | Renaming a row to a trimmed name held by no other row keeps the names unique. |
| Tables.OwnNameIsFree | backend/app/routers/role.py:80-86 | A row's own name does not conflict with itself on rename. |
| Tables.HeldNameConflicts | backend/app/routers/role.py:80-86 | A name held by one row conflicts for any other row and for a create. |
| Roles.ListingRows | backend/app/routers/role.py:36-47 | A negative skip or limit is an error. Otherwise at most `limit` roles in ascending id, each stored and matching the search. |
| Roles.ListingOrdered | backend/app/routers/role.py:46 | Listed roles are in ascending id order. |
| Roles.ListingContents | backend/app/routers/role.py:43-46 | Each listed role is stored under its id and matches the search. |
| Roles.Get | backend/app/routers/role.py:50-55 | Not-found exactly for an unknown id, else the stored role. |
| Roles.RoleTable.constructor | backend/app/routers/role.py:36-47 | A table starts with names trimmed and unique. |
| Roles.RoleTable.CreateRole | backend/app/routers/role.py:58-69 | Conflict when a role has the trimmed name, leaving the table unchanged. Otherwise the trimmed name is stored under a fresh id. Names stay unique. |
| Roles.RoleTable.UpdateRole | backend/app/routers/role.py:72-94 | Not-found for an unknown id. No name leaves the row unchanged. A name held by another role is a conflict. Otherwise only that row is renamed to the trimmed name. |
| Roles.RoleTable.DeleteRole | backend/app/routers/role.py:97-104 | Not-found for an unknown id; otherwise exactly that row is removed. |
| Roles.CreatedNameConflicts | backend/app/routers/role.py:61-63 | After creating a role, creating one with the same trimmed name conflicts. |
| Branches.ListingRows | backend/app/routers/branch.py:40-51 | A negative skip or limit is an error. Otherwise at most `limit` branches in ascending id, each stored and matching the search. |
| Branches.ListingOrdered | backend/app/routers/branch.py:50 | Listed branches are in ascending id order. |
| Branches.ListingContents | backend/app/routers/branch.py:47-50 | Each listed branch is stored under its id and matches the search. |
| Branches.Get | backend/app/routers/branch.py:54-59 | Not-found exactly for an unknown id, else the stored branch. |
| Branches.PatchContact | backend/app/routers/branch.py:101-105 | Address and phone change only when given; the name is untouched by this step. |
| Branches.EmptyPatchKeeps | backend/app/routers/branch.py:101-105 | An update giving nothing leaves the branch unchanged. |
| Branches.StoreKeepsUnique | backend/app/routers/branch.py:90-99 | Storing a branch with its own name, or with a trimmed name no other branch holds, keeps names unique. |
| Branches.BranchTable.constructor | backend/app/routers/branch.py:40-51 | A table starts with names trimmed and unique. |
| Branches.BranchTable.CreateBranch | backend/app/routers/branch.py:62-81 | Conflict on an existing trimmed name, leaving the table unchanged. Otherwise the branch is stored with the trimmed name under a fresh id. |
| Branches.BranchTable.UpdateBranch | backend/app/routers/branch.py:84-110 | Not-found for an unknown id. A name held by another branch is a conflict. Otherwise the name is trimmed and address and phone are replaced when given, in that row only. |
| Branches.BranchTable.DeleteBranch | backend/app/routers/branch.py:113-120 | Not-found for an unknown id; otherwise exactly that row is removed. |
| CarBrands.ListingRows | backend/app/routers/carbrand.py:36-47 | A negative skip or limit is an error. Otherwise at most `limit` brands in ascending id, each stored and matching the search. |
| CarBrands.ListingOrdered | backend/app/routers/carbrand.py:46 | Listed brands are in ascending id order. |
| CarBrands.ListingContents | backend/app/routers/carbrand.py:43-46 | Each listed brand is stored under its id and matches the search. |
| CarBrands.Get | backend/app/routers/carbrand.py:50-55 | Not-found exactly for an unknown id, else the stored brand. |
| CarBrands.CarBrandTable.constructor | backend/app/routers/carbrand.py:36-47 | A table starts with names trimmed and unique. |
| CarBrands.CarBrandTable.CreateCarBrand | backend/app/routers/carbrand.py:58-68 | Conflict when a brand has the trimmed name. Otherwise the trimmed name is stored under a fresh id. |
| CarBrands.CarBrandTable.UpdateCarBrand | backend/app/routers/carbrand.py:71-91 | Not-found for an unknown id. No name leaves the row unchanged. A name held by another brand is a conflict. Otherwise only that row is renamed. |
| CarBrands.CarBrandTable.DeleteCarBrand | backend/app/routers/carbrand.py:94-101 | Not-found for an unknown id; otherwise exactly that row is removed. |
| CarBrands.CreatedNameConflicts | backend/app/routers/carbrand.py:60-63 | After creating a brand, creating one with the same trimmed name conflicts. |
| Users.ListingRows | backend/app/routers/useraccount.py:41-55 | A negative skip or limit is an error. Otherwise at most `limit` users in ascending id, each stored, matching the search and, when given, the role. |
| Users.ListingOrdered | backend/app/routers/useraccount.py:54 | Listed users are in ascending id order. |
| Users.ListingContents | backend/app/routers/useraccount.py:48-54 | Each listed user is stored under its id and matches the filters. |
| Users.Get | backend/app/routers/useraccount.py:58-63 | Not-found exactly for an unknown id, else the stored user. |
| Users.UpdateOutcome | backend/app/routers/useraccount.py:89-119 | Not-found for an unknown id. An unknown role is a bad request. A username held by another user is a conflict. Otherwise role, trimmed username and password change only when given. |
| Users.RoleCheckedFirst | backend/app/routers/useraccount.py:95-100 | An unknown role is reported before any username conflict. |
| Users.PasswordKeptUnlessGiven | backend/app/routers/useraccount.py:113-114 | An update without a password keeps the stored one. |
| Users.StoreKeepsUnique | backend/app/routers/useraccount.py:102-111 | Storing a user with its own username, or one no other user holds, keeps usernames unique. |
| Users.UserTable.constructor | backend/app/routers/useraccount.py:41-55 | A table starts with usernames trimmed and unique. |
| Users.UserTable.CreateUser | backend/app/routers/useraccount.py:66-86 | An unknown role is a bad request, checked first. A taken trimmed username is a conflict. Otherwise the user is stored with the trimmed username under a fresh id. |
| Users.UserTable.UpdateUser | backend/app/routers/useraccount.py:89-119 | The table follows `UpdateOutcome` and usernames stay unique. |
| Users.UserTable.DeleteUser | backend/app/routers/useraccount.py:122-129 | Not-found for an unknown id; otherwise exactly that row is removed. |
| Customers.ListingRows | backend/app/routers/customer.py:48-67 | A negative skip or limit is an error. Otherwise at most `limit` customers in ascending id, each stored and matching the search. Soft-deleted ones are hidden unless included. |
| Customers.ListingAll | backend/app/routers/customer.py:48-67 | With deleted rows included and no search, the listing is the full page of the table. |
| Customers.Get | backend/app/routers/customer.py:70-75 | Not-found exactly for an unknown id, else the stored customer. |
| Customers.NewCustomer | backend/app/routers/customer.py:80-88 | A new customer has the trimmed full name and the given contact fields, and is not deleted unless the payload says so. |
| Customers.Patched | backend/app/routers/customer.py:101-114 | Update trims a given full name, overwrites each other field only when given and keeps the rest. |
| Customers.AssignFields | backend/app/routers/customer.py:101-114 | The field-by-field assignment yields the patched customer. |
| Customers.EmptyUpdateKeeps | backend/app/routers/customer.py:101-114 | An update giving nothing leaves the customer unchanged. |
| Customers.SoftDeleteHides | backend/app/routers/customer.py:122-131 | After a soft delete the row is still there with the flag set, and the default listing no longer shows it. |
| Customers.CustomerTable.constructor | backend/app/routers/customer.py:48-67 | A table starts with keys below the next id. |
| Customers.CustomerTable.CreateCustomer | backend/app/routers/customer.py:78-92 | The new customer is stored under a fresh id. |
| Customers.CustomerTable.UpdateCustomer | backend/app/routers/customer.py:95-119 | Not-found for an unknown id; otherwise only that row becomes its patched form. |
| Customers.CustomerTable.DeleteCustomer | backend/app/routers/customer.py:122-131 | Not-found for an unknown id; otherwise only the row's deleted flag is set, and the row stays. |
| Employees.ListingRows | backend/app/routers/employee.py:55-80 | A negative skip or limit is an error. Otherwise at most `limit` employees in ascending id, each stored and matching the search, role and branch. Soft-deleted ones are hidden unless included. |
| Employees.Get | backend/app/routers/employee.py:83-88 | Not-found exactly for an unknown id, else the stored employee. |
| Employees.NewEmployee | backend/app/routers/employee.py:101-112 | A new employee has the trimmed full name, the given role, branch and fields, and is not deleted unless the payload says so. |
| Employees.UpdateCheck | backend/app/routers/employee.py:119-135 | Not-found for an unknown id. A given role or branch that does not exist is a bad request. Otherwise the update is allowed. |
| Employees.Patched | backend/app/routers/employee.py:137-152 | Update trims a given full name, overwrites each other field only when given and keeps the rest. |
| Employees.AssignFields | backend/app/routers/employee.py:137-152 | The field-by-field assignment yields the patched employee. |
| Employees.EmptyUpdateKeeps | backend/app/routers/employee.py:137-152 | An update giving nothing leaves the employee unchanged. |
| Employees.SoftDeleteHides | backend/app/routers/employee.py:160-169 | After a soft delete the row is still there with the flag set, and the default listing no longer shows it. |
| Employees.EmployeeTable.constructor | backend/app/routers/employee.py:55-80 | A table starts with keys below the next id. |
| Employees.EmployeeTable.CreateEmployee | backend/app/routers/employee.py:91-116 | An unknown role, then an unknown branch, is a bad request with the table unchanged. Otherwise the new employee is stored under a fresh id. |
| Employees.EmployeeTable.UpdateEmployee | backend/app/routers/employee.py:119-157 | The table follows `UpdateCheck`: on success only that row becomes its patched form. |
| Employees.EmployeeTable.DeleteEmployee | backend/app/routers/employee.py:160-169 | Not-found for an unknown id; otherwise only the row's deleted flag is set, and the row stays. |
| Cars.EffectiveOffset | backend/app/routers/car.py:37 | The offset is max(0, skip). |
| Cars.EffectiveLimit | backend/app/routers/car.py:38 | The limit is clamped into 1..500 and kept when already inside. |
| Cars.RenderRows | backend/app/routers/car.py:43-52 | The loop that builds the result renders exactly the fetched cars, in order. |
| Cars.ListCars | backend/app/routers/car.py:24-53 | The handler returns the listing: matching cars in id order, in the clamped window. |
| Cars.GetCar | backend/app/routers/car.py:56-70 | Not-found for a missing id, else that car's row with null rates read as 0. |
| Cars.ListVehicles | backend/app/routers/car.py:77-84 | The vehicle alias returns the same listing as the car listing. |
| Cars.GetVehicle | backend/app/routers/car.py:87-89 | The vehicle alias returns the same answer as `get_car`. |
| Cars.MatchingAscending | backend/app/routers/car.py:35-36 | Matching car ids are strictly ascending. |
| Cars.WindowAscending | backend/app/routers/car.py:35-38 | The window has at most the effective limit of ids, strictly ascending. |
| Cars.WindowSelected | backend/app/routers/car.py:32-34 | Every id in the window matches the search. |
| Cars.ListingShape | backend/app/routers/car.py:32-52 | At most the effective limit of cars, in ascending id, each matching the search, with plate and status copied and null rates reported as 0. |
| Cars.ListingWindow | backend/app/routers/car.py:35-38 | The listing is exactly the matching ids from the effective offset, up to the effective limit. |
| Cars.NoSearchMatchesAll | backend/app/routers/car.py:32-34 | Without a search term every car matches, in key order. |
| ContractForm.ParseNum | frontend/contract/js/contract.js:9-15 | A missing element reads as 0. Otherwise the text is read after dropping every character but digits, '.' and '-', with a non-number read as 0. |
| ContractForm.CleanedIdempotent | frontend/contract/js/contract.js:12 | Cleaning twice is cleaning once. |
| ContractForm.ReadDigits | frontend/contract/js/contract.js:11-14 | Plain decimal digits read back as their value. |
| ContractForm.ReadNegative | frontend/contract/js/contract.js:11-14 | A minus sign and digits read back as the negative value. |
| ContractForm.ReadInteger | frontend/contract/js/contract.js:11-14 | Any integer written in decimal reads back as itself. |
| ContractForm.ParseNumInteger | frontend/contract/js/contract.js:9-15 | An element holding an integer parses to it. |
| ContractForm.ParseNumNoDigits | frontend/contract/js/contract.js:9-15 | Text with no digit, point or minus parses to 0. |
| ContractForm.UngroupDigits | frontend/contract/js/contract.js:5-8 | Removing the group separator from a grouped rendering gives back the digits. |
| ContractForm.CommaGroupingReadsBack | frontend/contract/js/contract.js:5-15 | A count shown with ',' grouping parses back to itself. |
| ContractForm.PointGroupingMisread | frontend/contract/js/contract.js:5-15 | With '.' grouping, 1.500.000 parses as 0 and 150.000 parses as 150. |
| ContractForm.MillionReadsAsZero | frontend/contract/js/contract.js:11-14 | "1.500.000" reads as 0. |
| ContractForm.ThousandsReadAsUnits | frontend/contract/js/contract.js:11-14 | "150.000" reads as 150. |
| ContractForm.RenderedReadsBack | frontend/contract/js/contract.js:5-15 | Parsing that drops the separator in use reads every grouped count back as itself. |
| ContractForm.DiffDays | frontend/contract/js/contract.js:16-22 | 0 when a date is missing or end is not after start. Otherwise the least whole number of days covering the gap, at least 1. |
| ContractForm.DiffDaysWholeDays | frontend/contract/js/contract.js:20-21 | Exactly n days apart counts n days, and one millisecond more counts n + 1. |
| ContractForm.Recalc | frontend/contract/js/contract.js:67-103 | Days from the dates; subtotal daily × days when days > 0 else 0; the surcharge total from the list, else from its cell. Grand is max(0, subtotal + surcharges − discount) and remaining is max(0, grand − pay now − deposit). |
| ContractForm.PaidInFull | frontend/contract/js/contract.js:97-102 | Paying at least the grand total, now plus deposit, leaves nothing remaining. |
| ContractForm.RemainingAtMostGrand | frontend/contract/js/contract.js:97-102 | Without negative payments the remaining amount never exceeds the grand total. |
| ContractForm.SentLineKeepsPrice | frontend/contract/js/contract.js:228 | A sent surcharge line keeps the unit price and has a quantity of at least 1, equal to the item's when numeric. |
| ContractForm.SentLinesAddUp | frontend/contract/js/contract.js:228 | The sent lines' unit price × quantity add up to the surcharge total. |
| ContractForm.Confirm | frontend/contract/js/contract.js:205-253 | Without a customer the handler stops, checked first; without a vehicle it stops next. Otherwise the payload has the fields, exactly one car line with amount days × rate, and the surcharge lines. A payment of pay now + deposit (method default "Cash") is posted exactly when the contract was created and one of them is positive. |
| ContractForm.CarLineMatchesSubtotal | frontend/contract/js/contract.js:218-229 | When the page shows the vehicle's rate as its daily price, the car line's amount equals the summary's vehicle subtotal. |
| JsNumbers.Or | frontend/contract/js/surcharge.js:21 | `x \|\| d` is x when x is truthy (not NaN and not 0), else d. |
| JsNumbers.AtLeastOne | frontend/contract/js/surcharge.js:130 | `Math.max(1, q)` is NaN exactly for NaN and otherwise at least 1, equal to q when q is at least 1. |
| JsNumbers.Times | frontend/contract/js/surcharge.js:134 | A product is NaN exactly when a factor is, and otherwise the product of the values. |
| JsNumbers.AtLeastZero | frontend/contract/js/contract.js:97 | `Math.max(0, x)` is 0 or x and at least both. |
| Surcharges.QuantityOf | frontend/contract/js/surcharge.js:130 | A stored quantity is NaN or at least 1. |
| Surcharges.Line | frontend/contract/js/surcharge.js:128-134 | A line carries the trimmed name, the unit price, the quantity and amount = unit price × quantity. |
| Surcharges.LineWellFormed | frontend/contract/js/surcharge.js:128-134 | A line built from accepted input is well formed. |
| Surcharges.Upserted | frontend/contract/js/surcharge.js:135-143 | Without an edit id a new line goes at the end. With one, the first item with that id is replaced in place and the others are kept. An unknown edit id changes nothing. |
| Surcharges.Without | frontend/contract/js/surcharge.js:121 | Every item with the id is dropped and the others are kept in order. |
| Surcharges.Total | frontend/contract/js/surcharge.js:21 | The sum of the amounts, with a missing amount counted as 0. It is never negative for well-formed items. |
| Surcharges.TotalConcat | frontend/contract/js/surcharge.js:21 | The total of two lists is the sum of their totals. |
| Surcharges.TotalReplace | frontend/contract/js/surcharge.js:138 | Replacing one item changes the total by the difference of the two amounts. |
| Surcharges.TotalSplit | frontend/contract/js/surcharge.js:121 | The items kept and the items with the id add up to the whole total. |
| Surcharges.UpsertTotal | frontend/contract/js/surcharge.js:126-147 | An append adds the new line's amount to the total. A replace swaps the old amount for the new. |
| Surcharges.RemoveLowersTotal | frontend/contract/js/surcharge.js:120-124 | Removing items never raises the total of well-formed items. |
| Surcharges.SurchargeList.constructor | frontend/contract/js/surcharge.js:13-16 | The list starts empty and not editing. |
| Surcharges.SurchargeList.GetAll | frontend/contract/js/surcharge.js:20 | Returns the items. |
| Surcharges.SurchargeList.GetTotal | frontend/contract/js/surcharge.js:21 | Returns `Total` of the items, never negative. |
| Surcharges.SurchargeList.BeginEdit | frontend/contract/js/surcharge.js:105-108 | Editing a present id records it; an absent id changes nothing. |
| Surcharges.SurchargeList.RemoveItem | frontend/contract/js/surcharge.js:120-124 | The items become `Without` the id. |
| Surcharges.SurchargeList.ClearAll | frontend/contract/js/surcharge.js:149-153 | The list becomes empty. |
| Surcharges.SurchargeList.Upsert | frontend/contract/js/surcharge.js:126-147 | An empty trimmed name or a negative or NaN price changes nothing. Otherwise the items become `Upserted` and the edit id is cleared. |
| Vehicles.TypeText | frontend/contract/js/vehicle.js:64 | The type id as text is empty exactly when the id is falsy. |
| Vehicles.SelectionKey | frontend/contract/js/vehicle.js:91 | The selection key is the car id, else the id, else none. |
| Vehicles.Rate | frontend/contract/js/vehicle.js:196 | The rate is the daily rate when truthy, else the price per day, else 0. |
| Vehicles.FilterVehicles | frontend/contract/js/vehicle.js:56-67 | A subsequence of the list in order, keeping exactly the vehicles matching the trimmed, lower-cased term in plate or status and the type filter. |
| Vehicles.BlankFilterShowsAll | frontend/contract/js/vehicle.js:60-64 | A blank term and type keep the whole list. |
| Vehicles.TypeFilterExact | frontend/contract/js/vehicle.js:58-64 | Every kept vehicle's type id as text equals the trimmed type filter. |
| Vehicles.FilterVehiclesIdempotent | frontend/contract/js/vehicle.js:56-67 | Filtering again with the same term and type changes nothing. |
| Vehicles.TypeOptions | frontend/contract/js/vehicle.js:34-36 | One {id, name} option per type, in order; none for a missing list. |
| Vehicles.TypeOptionsConcat | frontend/contract/js/vehicle.js:34-36 | The options of two lists are the options of each, concatenated. |
| Vehicles.TypeOptionsKeepDuplicates | frontend/contract/js/vehicle.js:34-36 | Despite its name, the mapping keeps duplicate types. |
| Vehicles.VehiclePicker.constructor | frontend/contract/js/vehicle.js:13-19 | No vehicles, no selection and nothing published. |
| Vehicles.VehiclePicker.ApplyFilter | frontend/contract/js/vehicle.js:128-136 | The filtered list becomes `FilterVehicles` of all vehicles. Nothing else changes. |
| Vehicles.VehiclePicker.Load | frontend/contract/js/vehicle.js:148-182 | All vehicles become the response, or empty on failure, and the filtered list is recomputed. |
| Vehicles.VehiclePicker.Choose | frontend/contract/js/vehicle.js:113-116 | The selection becomes the vehicle's key. Nothing else changes. |
| Vehicles.VehiclePicker.Confirm | frontend/contract/js/vehicle.js:213-221 | With no selection, or one not found, nothing changes. Otherwise the first vehicle with that key is published and the selection is cleared. |
| Api.DefaultBase | frontend/contract/js/api.js:2 | The configured URL trimmed, or the local server when it is missing or blank. |
| Api.DropTrailingSlash | frontend/contract/js/api.js:3 | One trailing '/' is removed, if present. |
| Api.Base | frontend/contract/js/api.js:2-3 | BASE is the default URL with at most one trailing '/' removed. |
| Api.TrailingSlashIgnored | frontend/contract/js/api.js:2-3 | A configured URL with or without one trailing '/' gives the same BASE. |
| Api.Entries | frontend/contract/js/api.js:8-12 | The entries are, in order, exactly the parameters whose value is not undefined, null or '', each keyed by its key with `String(v)` as value. None are kept exactly when every value is skipped. |
| Api.EntriesConcat | frontend/contract/js/api.js:8-12 | Entries are kept independently of each other. |
| Api.Serialized | frontend/contract/js/api.js:13 | The serialized entries are empty exactly when there are none. |
| Api.SerializedConcat | frontend/contract/js/api.js:13 | Two groups of entries serialize as the two joined by '&'. |
| Api.ToQuery | frontend/contract/js/api.js:5-15 | '' for missing parameters or when none survives. Otherwise '?' followed by the encoded pairs. |
| Api.SameEntriesSameQuery | frontend/contract/js/api.js:5-15 | Parameters with the same kept entries give the same query. |
| Api.SkippedParamIgnored | frontend/contract/js/api.js:10 | Adding a parameter whose value is skipped does not change the query. |
| Api.StripLeadingSlashes | frontend/contract/js/api.js:18 | All and only the leading '/' are removed. |
| Api.BuildUrl | frontend/contract/js/api.js:17-20 | The URL is BASE, one '/', then exactly the path without its leading '/' followed by the query. |
| Api.LeadingSlashesIgnored | frontend/contract/js/api.js:18-19 | Extra leading '/' on the path do not change the URL. |
| MockContracts.NameById | frontend/app.js:70-73 | The first match's name, or '' when none matches. |
| MockContracts.Visible | frontend/app.js:75-83 | The table shows, in order, exactly the contracts whose customer name, vehicle name or code contains the lower-cased query. |
| MockContracts.EmptyQueryShowsAll | frontend/app.js:77-83 | An empty query shows every contract. |
| MockContracts.FoundByOwnCode | frontend/app.js:82 | A contract is shown when the query is its own code. |
| MockContracts.Code | frontend/app.js:170 | A code is "CT-" followed by at least four digits. |
| MockContracts.CodeNumber | frontend/app.js:170 | The digits of the code read back as the number. |
| MockContracts.CodeInjective | frontend/app.js:170 | Different numbers give different codes. |
| MockContracts.FirstCodes | frontend/app.js:170 | The first two codes are "CT-0001" and "CT-0002". |
| MockContracts.NewContract | frontend/app.js:169-179 | The new contract gets the code, the status with default "Active" and the amount with default 0. |
| MockContracts.Submitted | frontend/app.js:166-184 | A submission missing customer, vehicle or staff changes nothing. Otherwise the new contract goes in front of the unchanged list. |
| MockContracts.Toggled | frontend/app.js:230 | The first contract with the code flips "Active" to "Completed" and anything else to "Active"; the rest is unchanged. |
| MockContracts.ToggleTwice | frontend/app.js:230 | Toggling twice gives back the list when the status was "Active" or "Completed". |
| MockContracts.Deleted | frontend/app.js:212-238 | After confirmation, exactly the first contract with the code is removed. An unknown code or a refusal changes nothing. |
| MockContracts.DeleteRemovesCode | frontend/app.js:234-238 | With distinct codes, a confirmed delete leaves no contract with that code. |
| MockContracts.DuplicateCodeAfterDelete | frontend/app.js:170 | Submit, delete "CT-0001" and submit again from the seed list yields two contracts coded "CT-0002". |
| MockContracts.SubmittedCounted | frontend/app.js:166-184 | Numbering from a count of codes ever issued: the new contract goes in front, coded with the next count. |
| MockContracts.CountedSubmitKeepsCodesDistinct | frontend/app.js:170 | With counted numbering, a submission keeps codes distinct. |
| MockContracts.DeleteKeepsCodesDistinct | frontend/app.js:234-238 | A delete keeps codes distinct and issued. |
| MockContracts.FormatMoney | frontend/app.js:104-107 | '' for a missing or empty value, else the currency rendering of the number. |
| MockContracts.MockBoard.constructor | frontend/app.js:18-26 | The board starts with the seed contract, codes distinct. |
| MockContracts.MockBoard.Submit | frontend/app.js:166-205 | The list becomes `Submitted` of the old list. |
| MockContracts.MockBoard.Details | frontend/app.js:212-226 | Some contract exactly when a contract has the code; then it is the first such contract. |
| MockContracts.MockBoard.ToggleStatus | frontend/app.js:228-233 | The list becomes `Toggled` of the old list. |
| MockContracts.MockBoard.Delete | frontend/app.js:234-238 | The list becomes `Deleted` of the old list. |

## Left out

- Requests, sessions and the database engine: each handler is one atomic step that commits
  everything or nothing. Autoflush and the mechanics of rollback are not modelled.
- Concurrency between simultaneous requests is not modelled.
- `ilike` is modelled as case-insensitive "contains"; '%' and '_' in a search term are not
  treated as wildcards.
- Case conversion and trimming are ASCII only; there is no Unicode case folding.
  Python's `str.strip()` and JavaScript's `trim()` share one whitespace set (space, tab,
  LF, CR, VT, FF): the separators \x1c-\x1f that Python also strips are kept.
- Backend money is integer cents within the Numeric(15,2) range, and dates are integer day
  numbers. Employee salaries are whole hundredths.
- Integer columns of the contract tables hold 32-bit values (`IntegerFits`). The serial
  primary keys and `nextId` are unbounded, so running out of a key sequence is not
  modelled. The integer columns of the roles, branches, brands, users, employees and
  customers routers are not bounded.
- Contracts.CreateReadsBackCars, Contracts.ToRead, Contracts.ContractSession.GetContract and
  Contracts.ContractSession.ListContracts: a contract's cars come back in the order their
  car lines were inserted. The relationship load has no ORDER BY, so PostgreSQL may return
  them in another order.
- Contracts.Commit: when one request both overflows a column and breaks a key or check
  constraint, the model reports the data error. PostgreSQL reports whichever statement of
  the flush fails first.
- Pydantic's coercion of request values (a string "5" for an int, say) is not modelled. A
  payload is either given fields of the right type or missing ones.
- Timestamps that the database fills in (created_at, updated_at) are not modelled.
- The routers for roles, branches, brands, users, employees and customers use attribute and
  model names that do not match backend/app/models.py. They are modelled over abstract
  records with the fields the routers use.
- The table classes assume their initial rows already satisfy their invariant (trimmed,
  unique names; keys below the next id).
- backend/app/database.py, backend/app/routers/cartype.py, frontend/contract/js/main.js and
  frontend/contract/js/contract-test.js are not part of this model.
- Front-end numbers are exact reals or NaN, not IEEE doubles: rounding, Infinity and -0 are
  not modelled. `Number(text)` is modelled only for what `parseNum` reads: an optional
  '-', digits and at most one '.'.
- Front-end dates are milliseconds. `new Date(value).getTime()` is a parameter of the
  model.
- `toLocaleString` is modelled as digit grouping with a separator chosen by the locale.
  `Intl.NumberFormat` currency rendering is a parameter of `FormatMoney`.
- `Date.now()` ids, the `confirm()` dialog and the API response are parameters.
- DOM rendering, element lookups and the presence guards on elements are not modelled.
  Event wiring, modal toggling and `fetch`/`request()` are not modelled either.
- URL encoding by URLSearchParams is an abstract `encode` function. The order of parameters
  is the order of a given list, standing in for `Object.keys`. Parameter values are
  strings.
- `openEdit` is modelled only up to its state effect (`BeginEdit`). The rest reads an
  undeclared variable and throws.
- Surcharges.QuantityOf: a quantity entered as non-numeric text stays NaN, as
  `Math.max(1, NaN)` does, so the "at least 1" promise holds only for numeric input.
- ContractForm.Recalc: keeps `parseNum` as written, so on a page whose locale groups digits
  with '.', the totals inherit the misreading listed under Findings.
- MockContracts.MockBoard.Submit: keeps the numbering as written (list length + 1). The
  counted numbering that keeps codes distinct is `SubmittedCounted`, proved alongside.

## Findings

| source | as written | input that shows it | evidently intended | confidence | as-written member | corrected member |
|---|---|---|---|---|---|---|
| frontend/contract/js/contract.js:5-15 | `fmt` groups digits with the locale's separator and `parseNum` keeps '.', so a value shown with '.' grouping, as in vi-VN, is read back wrongly. | A daily price of 1500000 shown as "1.500.000" reads back as 0, and 150000 shown as "150.000" reads back as 150. | A number the page shows reads back as itself. | not executed; depends on the browser locale | ContractForm.PointGroupingMisread | ContractForm.RenderedReadsBack |
| frontend/app.js:170 | The new code is the current list length + 1, so after a delete it can repeat a code still in the list. | From the seed list, submit (CT-0002), delete CT-0001 and submit again: two contracts are coded CT-0002. | Codes stay distinct. | not executed | MockContracts.DuplicateCodeAfterDelete | MockContracts.CountedSubmitKeepsCodesDistinct |
