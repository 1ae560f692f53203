/** What each command of estate_manager/cli.py does to the four tables, as a function from the
    store before the command to the store after it (or, for the list commands, to what it lists). */
module Operations {
  import opened Models

  /** One entry of `list-properties`: a property and its three relationships. */
  datatype PropertyView = PropertyView(
    property: Property,
    tenants: map<Id, Tenant>,
    requests: map<Id, MaintenanceRequest>,
    contacts: map<Id, Contact>)

  /** `add-property`: one new property with a fresh id; the dependents are untouched. */
  function AddProperty(s: Store, address: string, price: int, description: string, imageUrl: string): (s': Store)
    ensures var id := NextId(s.properties.Keys);
      && id !in s.properties
      && s'.properties.Keys == s.properties.Keys + {id}
      && s'.properties[id] == Property(address, Some(price), Some(description), Some(imageUrl))
      && (forall k :: k in s.properties ==> s'.properties[k] == s.properties[k])
    ensures s'.tenants == s.tenants && s'.requests == s.requests && s'.contacts == s.contacts
    ensures s.NoOrphans() ==> s'.NoOrphans()
  {
    var p := Property(address, Some(price), Some(description), Some(imageUrl));
    s.(properties := s.properties[NextId(s.properties.Keys) := p])
  }

  /** `add-property-image`: sets the image URL of an existing property and nothing else. */
  function AddPropertyImage(s: Store, pid: Id, imageUrl: string): (s': Store)
    ensures pid in s.properties ==>
      && s'.properties.Keys == s.properties.Keys
      && s'.properties[pid] == s.properties[pid].(imageUrl := Some(imageUrl))
      && (forall k :: k in s.properties && k != pid ==> s'.properties[k] == s.properties[k])
    ensures pid !in s.properties ==> s' == s
    ensures s'.tenants == s.tenants && s'.requests == s.requests && s'.contacts == s.contacts
    ensures s'.NoOrphans() <==> s.NoOrphans()
  {
    if pid in s.properties then
      s.(properties := s.properties[pid := s.properties[pid].(imageUrl := Some(imageUrl))])
    else
      s
  }

  /** `list-properties`: every property, each with exactly the dependents that reference it. */
  function ListProperties(s: Store): (r: map<Id, PropertyView>)
    ensures r.Keys == s.properties.Keys
    ensures forall id :: id in r ==>
      && r[id].property == s.properties[id]
      && (forall t :: t in r[id].tenants <==> t in s.tenants && s.tenants[t].propertyId == id)
      && (forall q :: q in r[id].requests <==> q in s.requests && s.requests[q].propertyId == id)
      && (forall c :: c in r[id].contacts <==> c in s.contacts && s.contacts[c].propertyId == id)
    ensures forall id, t :: id in r && t in r[id].tenants ==> r[id].tenants[t] == s.tenants[t]
    ensures forall id, q :: id in r && q in r[id].requests ==> r[id].requests[q] == s.requests[q]
    ensures forall id, c :: id in r && c in r[id].contacts ==> r[id].contacts[c] == s.contacts[c]
  {
    map id | id in s.properties ::
      PropertyView(s.properties[id], s.TenantsOf(id), s.RequestsOf(id), s.ContactsOf(id))
  }

  /** `add-tenant`: on an existing property, one new tenant with a fresh id; otherwise nothing. */
  function AddTenant(s: Store, pid: Id, name: string): (s': Store)
    ensures pid in s.properties ==> var id := NextId(s.tenants.Keys);
      && id !in s.tenants
      && s'.tenants.Keys == s.tenants.Keys + {id}
      && s'.tenants[id] == Tenant(pid, name)
      && (forall k :: k in s.tenants ==> s'.tenants[k] == s.tenants[k])
      && s'.properties == s.properties && s'.requests == s.requests && s'.contacts == s.contacts
    ensures pid !in s.properties ==> s' == s
    ensures s.NoOrphans() ==> s'.NoOrphans()
  {
    if pid in s.properties then
      s.(tenants := s.tenants[NextId(s.tenants.Keys) := Tenant(pid, name)])
    else
      s
  }

  /** `list-tenants`: the tenants of an existing property, or "not found". */
  function ListTenants(s: Store, pid: Id): (r: Lookup<map<Id, Tenant>>)
    ensures r.Found? <==> pid in s.properties
    ensures r.Found? ==> forall t :: t in r.value <==> t in s.tenants && s.tenants[t].propertyId == pid
    ensures r.Found? ==> forall t :: t in r.value ==> r.value[t] == s.tenants[t]
  {
    if pid in s.properties then Found(s.TenantsOf(pid)) else NotFound
  }

  /** `delete-property`: removes the property and, by the cascade of its three relationships,
      every dependent that references it; on a missing id nothing changes. */
  function DeleteProperty(s: Store, pid: Id): (s': Store)
    ensures pid in s.properties ==>
      && s'.properties == s.properties - {pid}
      && s'.TenantsOf(pid) == map[] && s'.RequestsOf(pid) == map[] && s'.ContactsOf(pid) == map[]
    ensures pid !in s.properties ==> s' == s
    ensures s'.tenants.Keys <= s.tenants.Keys && s'.requests.Keys <= s.requests.Keys
    ensures s'.contacts.Keys <= s.contacts.Keys
    ensures forall q :: q != pid ==> s'.TenantsOf(q) == s.TenantsOf(q)
    ensures forall q :: q != pid ==> s'.RequestsOf(q) == s.RequestsOf(q)
    ensures forall q :: q != pid ==> s'.ContactsOf(q) == s.ContactsOf(q)
    ensures s.NoOrphans() ==> s'.NoOrphans()
  {
    if pid in s.properties then
      Store(
        s.properties - {pid},
        s.tenants - s.TenantsOf(pid).Keys,
        s.requests - s.RequestsOf(pid).Keys,
        s.contacts - s.ContactsOf(pid).Keys)
    else
      s
  }

  /** `delete-tenant`: removes exactly the tenant with that id, if there is one. */
  function DeleteTenant(s: Store, tid: Id): (s': Store)
    ensures tid in s.tenants ==> s'.tenants.Keys == s.tenants.Keys - {tid}
    ensures forall k :: k in s'.tenants ==> k in s.tenants && s'.tenants[k] == s.tenants[k]
    ensures tid !in s.tenants ==> s' == s
    ensures s'.properties == s.properties && s'.requests == s.requests && s'.contacts == s.contacts
    ensures s.NoOrphans() ==> s'.NoOrphans()
  {
    s.(tenants := s.tenants - {tid})
  }

  /** `add-maintenance-request`: one new request with a fresh id and status "Pending". The
      property is not looked up, so the store keeps its integrity exactly when it exists. */
  function AddMaintenanceRequest(s: Store, pid: Id, description: string, now: Timestamp): (s': Store)
    ensures var id := NextId(s.requests.Keys);
      && id !in s.requests
      && s'.requests.Keys == s.requests.Keys + {id}
      && s'.requests[id] == MaintenanceRequest(pid, description, now, Pending)
      && (forall k :: k in s.requests ==> s'.requests[k] == s.requests[k])
    ensures s'.properties == s.properties && s'.tenants == s.tenants && s'.contacts == s.contacts
    ensures s.NoOrphans() ==> (s'.NoOrphans() <==> pid in s.properties)
  {
    s.(requests := s.requests[NextId(s.requests.Keys) := MaintenanceRequest(pid, description, now, Pending)])
  }

  /** `list-maintenance-requests`: the requests of an existing property, or "not found". */
  function ListMaintenanceRequests(s: Store, pid: Id): (r: Lookup<map<Id, MaintenanceRequest>>)
    ensures r.Found? <==> pid in s.properties
    ensures r.Found? ==> forall q :: q in r.value <==> q in s.requests && s.requests[q].propertyId == pid
    ensures r.Found? ==> forall q :: q in r.value ==> r.value[q] == s.requests[q]
  {
    if pid in s.properties then Found(s.RequestsOf(pid)) else NotFound
  }

  /** `delete-maintenance-request`: removes exactly the request with that id, if there is one. */
  function DeleteMaintenanceRequest(s: Store, rid: Id): (s': Store)
    ensures rid in s.requests ==> s'.requests.Keys == s.requests.Keys - {rid}
    ensures forall k :: k in s'.requests ==> k in s.requests && s'.requests[k] == s.requests[k]
    ensures rid !in s.requests ==> s' == s
    ensures s'.properties == s.properties && s'.tenants == s.tenants && s'.contacts == s.contacts
    ensures s.NoOrphans() ==> s'.NoOrphans()
  {
    s.(requests := s.requests - {rid})
  }

  /** `add-contact`: one new contact with a fresh id. As for maintenance requests the property
      is not looked up, so the store keeps its integrity exactly when it exists. */
  function AddContact(s: Store, pid: Id, name: string, phone: string, email: string, role: string): (s': Store)
    ensures var id := NextId(s.contacts.Keys);
      && id !in s.contacts
      && s'.contacts.Keys == s.contacts.Keys + {id}
      && s'.contacts[id] == Contact(pid, name, Some(phone), Some(email), Some(role))
      && (forall k :: k in s.contacts ==> s'.contacts[k] == s.contacts[k])
    ensures s'.properties == s.properties && s'.tenants == s.tenants && s'.requests == s.requests
    ensures s.NoOrphans() ==> (s'.NoOrphans() <==> pid in s.properties)
  {
    s.(contacts := s.contacts[NextId(s.contacts.Keys) := Contact(pid, name, Some(phone), Some(email), Some(role))])
  }

  /** `list-contacts`: the contacts of an existing property, or "not found". */
  function ListContacts(s: Store, pid: Id): (r: Lookup<map<Id, Contact>>)
    ensures r.Found? <==> pid in s.properties
    ensures r.Found? ==> forall c :: c in r.value <==> c in s.contacts && s.contacts[c].propertyId == pid
    ensures r.Found? ==> forall c :: c in r.value ==> r.value[c] == s.contacts[c]
  {
    if pid in s.properties then Found(s.ContactsOf(pid)) else NotFound
  }

  /** `delete-contact`: removes exactly the contact with that id, if there is one. */
  function DeleteContact(s: Store, cid: Id): (s': Store)
    ensures cid in s.contacts ==> s'.contacts.Keys == s.contacts.Keys - {cid}
    ensures forall k :: k in s'.contacts ==> k in s.contacts && s'.contacts[k] == s.contacts[k]
    ensures cid !in s.contacts ==> s' == s
    ensures s'.properties == s.properties && s'.tenants == s.tenants && s'.requests == s.requests
    ensures s.NoOrphans() ==> s'.NoOrphans()
  {
    s.(contacts := s.contacts - {cid})
  }
}
