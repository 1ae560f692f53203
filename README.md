# Property registry of estate_manager

estate_manager is a command-line tool that keeps track of rental properties. It stores their
tenants, maintenance requests and contacts in four SQLite tables through SQLAlchemy. This project
models the registry behind the commands. It covers the four record shapes and their schema rules
from `estate_manager/models.py`, and what each command in `estate_manager/cli.py` does to the
tables once its printing is removed.

- `models.dfy` (module `Models`) has the record shapes. Required columns (a property's address,
  a tenant's name, a request's description, a contact's name) are plain `string` fields, so no
  record can lack them. Nullable columns (price, description, image URL, phone, email, role) are
  `Option` fields. The status default `"Pending"` is a constant. A `Store` holds the four tables
  as maps keyed by primary key, so a lookup by id finds at most one record. `TenantsOf`,
  `RequestsOf` and `ContactsOf` are the three relationships of a property: the dependents whose
  `property_id` is its id. `NoOrphans` is referential integrity: every dependent references an
  existing property. `NextId` is the id SQLite assigns to a new row. It is 1 for an empty table
  and otherwise one more than the largest id in the table.
- `operations.dfy` (module `Operations`) has one function per command. It maps the store before
  the command to the store after it. For the list commands it maps the store to what is listed.
  Each function's contract states:
  - the found / not-found split;
  - that the id is fresh;
  - exactly which records change, and that nothing else does;
  - whether `NoOrphans` is preserved.
- `laws.dfy` (module `Laws`) has properties of command sequences:
  - add-then-delete round trips;
  - what the cascade removes and how many records;
  - the consequence of inserting maintenance requests without checking that the property exists;
  - two worked scenarios: a property with tenant Alice, and a property with a "Leaky faucet" request.
- `registry.dfy` (module `Commands`) has the `Registry` class. It holds the four tables as
  fields, and the commands are methods that update them in place. Each method's new state is the
  corresponding `Operations` function of the old state. Its reply is `Found(...)` or `NotFound`.
  `DeleteProperty` performs the cascade as the ORM does: it deletes the property's dependents one
  at a time (through `DeleteTenant`, `DeleteMaintenanceRequest` and `DeleteContact`), then the
  property.

`add-maintenance-request` and `add-contact` insert without looking the property up, unlike
`add-tenant`. SQLite does not enforce foreign keys unless asked to. So these two inserts always
succeed, and they keep the store free of orphans exactly when the property exists
(`Operations.AddMaintenanceRequest`, `Operations.AddContact`). A request filed against the id
that the next property will get is adopted by that property once it is added
(`Laws.RequestAdoptedByNextProperty`).

Three behaviours of the code worth noting:
- No command rejects an empty address or name. `nullable=False` only rejects a missing value.
- Listings are not ordered, because the queries have no `order_by`. They are modelled as maps
  from id to record.
- Ids can be reused. SQLite hands out one more than the largest current id, so deleting the
  newest property and adding another gives the new one the same id (`Laws.AddThenDeleteProperty`).

## Model

| member | source | states |
|---|---|---|
| `Models.NextId` | estate_manager/models.py:12 | a new row's id is not among the table's current ids and is larger than all of them; it is 1 for an empty table and otherwise one more than the largest id |
| `Models.LargestId` | estate_manager/models.py:12 | a non-empty table has a largest id, which is one of its ids and at least every other id |
| `Operations.AddProperty` | estate_manager/cli.py:13-18 | exactly one new property is added, under a fresh id, with the given address, price, description and image URL; existing properties and all dependent tables are unchanged; integrity is preserved |
| `Operations.AddPropertyImage` | estate_manager/cli.py:25-34 | on an existing id only that property's image URL changes; on a missing id the store is unchanged; integrity holds after exactly when before |
| `Operations.ListProperties` | estate_manager/cli.py:38-53 | lists every property and no other id; each entry carries exactly the tenants, requests and contacts whose property id is that property's id, with their records |
| `Operations.AddTenant` | estate_manager/cli.py:58-68 | on an existing property exactly one tenant is added, under a fresh id, with the given name and that property id, and nothing else changes; on a missing property the store is unchanged; integrity is preserved |
| `Operations.ListTenants` | estate_manager/cli.py:73-83 | found exactly when the property exists; then lists exactly the tenants referencing it, with their records |
| `Operations.DeleteProperty` | estate_manager/cli.py:87-97 | on an existing id the property is removed and none of its tenants, requests or contacts remain, while every other property's dependents are unchanged; on a missing id the store is unchanged; integrity is preserved |
| `Operations.DeleteTenant` | estate_manager/cli.py:101-111 | an existing tenant id is removed and every other tenant keeps its record; a missing id leaves the store unchanged; the other tables are unchanged; integrity is preserved |
| `Operations.AddMaintenanceRequest` | estate_manager/cli.py:116-122 | inserts without a property check: exactly one new request under a fresh id with the given property id, description and timestamp and status "Pending"; a store without orphans stays without orphans if and only if the property exists |
| `Operations.ListMaintenanceRequests` | estate_manager/cli.py:127-137 | found exactly when the property exists; then lists exactly the requests referencing it, with their records |
| `Operations.DeleteMaintenanceRequest` | estate_manager/cli.py:141-151 | an existing request id is removed and every other request keeps its record; a missing id leaves the store unchanged; the other tables are unchanged; integrity is preserved |
| `Operations.AddContact` | estate_manager/cli.py:159-165 | inserts without a property check: exactly one new contact under a fresh id with the given property id, name, phone, email and role; a store without orphans stays without orphans if and only if the property exists |
| `Operations.ListContacts` | estate_manager/cli.py:170-180 | found exactly when the property exists; then lists exactly the contacts referencing it, with their records |
| `Operations.DeleteContact` | estate_manager/cli.py:184-194 | an existing contact id is removed and every other contact keeps its record; a missing id leaves the store unchanged; the other tables are unchanged; integrity is preserved |
| `Laws.AddedTenantIsListed` | estate_manager/cli.py:58-83 | after adding a tenant to an existing property, listing that property's tenants gives the earlier listing plus the new tenant |
| `Laws.AddThenDeleteTenant` | estate_manager/cli.py:58-111 | adding a tenant and deleting the id it received restores the store |
| `Laws.AddThenDeleteRequest` | estate_manager/cli.py:116-151 | adding a maintenance request and deleting the id it received restores the store |
| `Laws.AddThenDeleteContact` | estate_manager/cli.py:159-194 | adding a contact and deleting the id it received restores the store |
| `Laws.AddThenDeleteProperty` | estate_manager/cli.py:13-97 | in a store without orphans, adding a property and deleting the id it received restores the store, since the cascade finds no dependents |
| `Laws.DeletedPropertyIsGone` | estate_manager/models.py:19-25 | after a property is deleted, listing its tenants, requests or contacts reports not found, and no record in any table references it |
| `Laws.CascadeCount` | estate_manager/models.py:19-25 | deleting a property with N tenants, M requests and K contacts shrinks the tables by exactly 1, N, M and K records |
| `Laws.RequestAdoptedByNextProperty` | estate_manager/cli.py:116-122 | a request filed against the next property id leaves an orphan; adding the property removes the orphan, the request becomes one of the property's requests, and deleting the property deletes it |
| `Laws.TenantScenario` | estate_manager/cli.py:58-83 | on an empty store, "123 Main St" and tenant Alice both get id 1, Alice is listed, and after the property is deleted its tenants are not found |
| `Laws.MaintenanceScenario` | estate_manager/models.py:41-47 | on an empty store, "5 Oak Ave" gets id 1, its "Leaky faucet" request gets id 1 with status "Pending", and after the request is deleted the property lists no requests |
| `Commands.Registry.constructor` | estate_manager/models.py:63-65 | a newly initialised database has four empty tables |
| `Commands.Registry.AddProperty` | estate_manager/cli.py:13-18 | inserts in place; returns the new, previously unused id; the new state is `Operations.AddProperty` of the old |
| `Commands.Registry.AddPropertyImage` | estate_manager/cli.py:25-34 | updates in place; replies with the updated property, or not found when the id is missing; the new state is `Operations.AddPropertyImage` of the old |
| `Commands.Registry.ListProperties` | estate_manager/cli.py:38-53 | walks the properties one at a time and returns `Operations.ListProperties` of the current state without changing it |
| `Commands.Registry.AddTenant` | estate_manager/cli.py:58-68 | replies with the new tenant's id, or not found when the property is missing; the new state is `Operations.AddTenant` of the old |
| `Commands.Registry.ListTenants` | estate_manager/cli.py:73-83 | read-only; returns `Operations.ListTenants` of the current state |
| `Commands.Registry.DeleteProperty` | estate_manager/cli.py:87-97 | replies with the deleted property, or not found; deletes the property's tenants, requests and contacts one by one, then the property; the new state is `Operations.DeleteProperty` of the old |
| `Commands.Registry.DeleteTenant` | estate_manager/cli.py:101-111 | replies with the deleted tenant, or not found; the new state is `Operations.DeleteTenant` of the old |
| `Commands.Registry.AddMaintenanceRequest` | estate_manager/cli.py:116-122 | inserts without a property check; returns a previously unused id whose request has status "Pending"; the new state is `Operations.AddMaintenanceRequest` of the old |
| `Commands.Registry.ListMaintenanceRequests` | estate_manager/cli.py:127-137 | read-only; returns `Operations.ListMaintenanceRequests` of the current state |
| `Commands.Registry.DeleteMaintenanceRequest` | estate_manager/cli.py:141-151 | replies with the deleted request, or not found; the new state is `Operations.DeleteMaintenanceRequest` of the old |
| `Commands.Registry.AddContact` | estate_manager/cli.py:159-165 | inserts without a property check; returns a previously unused id; the new state is `Operations.AddContact` of the old |
| `Commands.Registry.ListContacts` | estate_manager/cli.py:170-180 | read-only; returns `Operations.ListContacts` of the current state |
| `Commands.Registry.DeleteContact` | estate_manager/cli.py:184-194 | replies with the deleted contact, or not found; the new state is `Operations.DeleteContact` of the old |

## Left out

- Command-line plumbing is not modelled: the click decorators, argument parsing, command registration and the entry point. Arguments arrive already typed, as the `type=int` arguments and the `--price` default of 0 would give them.
- The text each command prints is not modelled. Only the found / not-found outcome is kept, as the `Lookup` reply.
- Sessions, commits, the engine and its SQLite file are not modelled. Each command is one atomic step on the store.
- The `datetime.utcnow` default of `request_date` is not modelled. It reads a clock, so the timestamp is a parameter of the maintenance-request commands.
- Listing order is not modelled. The queries have no `order_by`, so listings are maps from id to record.
- The `String(n)` length limits are not modelled, because SQLite does not enforce them.
- A NULL `property_id` is not modelled. The three columns are nullable, but every command writes an integer there, so dependents carry a plain id.
- Out-of-range integers are not modelled. Ids and prices are unbounded here, but click accepts any Python integer while SQLite stores 64-bit ones. An argument outside the signed 64-bit range makes the command raise `OverflowError` and change nothing, whereas the model adds the property or answers "not found".
- A NULL `status` or `request_date` is not modelled. Both columns are nullable, but every insert fills them through their column defaults, so requests carry a plain status and timestamp.
- The `delete-orphan` half of the cascade is not modelled. It deletes a child that is removed from its property's collection, and no command moves or detaches a dependent.
- Models.NextId: does not model SQLite's fallback once the largest id reaches 2^63 - 1. At that point SQLite picks an unused id at random. Ids here are unbounded integers.
