/** Properties of sequences of commands: round trips, what the cascade removes, and what the
    unchecked inserts of maintenance requests and contacts allow. */
module Laws {
  import opened Models
  import opened Operations

  /** After `add-tenant` on an existing property, `list-tenants` shows the tenants it showed
      before plus the new one. */
  lemma AddedTenantIsListed(s: Store, pid: Id, name: string)
    requires pid in s.properties
    ensures ListTenants(AddTenant(s, pid, name), pid)
         == Found(s.TenantsOf(pid)[NextId(s.tenants.Keys) := Tenant(pid, name)])
  {
    var s' := AddTenant(s, pid, name);
    var id := NextId(s.tenants.Keys);
    assert s'.TenantsOf(pid) == s.TenantsOf(pid)[id := Tenant(pid, name)];
  }

  /** Adding a tenant and then deleting it restores the store. */
  lemma AddThenDeleteTenant(s: Store, pid: Id, name: string)
    requires pid in s.properties
    ensures DeleteTenant(AddTenant(s, pid, name), NextId(s.tenants.Keys)) == s
  {
  }

  /** Adding a maintenance request and then deleting it restores the store. */
  lemma AddThenDeleteRequest(s: Store, pid: Id, description: string, now: Timestamp)
    ensures DeleteMaintenanceRequest(AddMaintenanceRequest(s, pid, description, now), NextId(s.requests.Keys)) == s
  {
  }

  /** Adding a contact and then deleting it restores the store. */
  lemma AddThenDeleteContact(s: Store, pid: Id, name: string, phone: string, email: string, role: string)
    ensures DeleteContact(AddContact(s, pid, name, phone, email, role), NextId(s.contacts.Keys)) == s
  {
  }

  /** In a store without orphans, adding a property and deleting it again restores the store:
      the cascade finds no dependents of the new id. */
  lemma AddThenDeleteProperty(s: Store, address: string, price: int, description: string, imageUrl: string)
    requires s.NoOrphans()
    ensures DeleteProperty(AddProperty(s, address, price, description, imageUrl), NextId(s.properties.Keys)) == s
  {
    var id := NextId(s.properties.Keys);
    var s' := AddProperty(s, address, price, description, imageUrl);
    assert forall t :: t in s.tenants ==> s.tenants[t].propertyId != id;
    assert forall q :: q in s.requests ==> s.requests[q].propertyId != id;
    assert forall c :: c in s.contacts ==> s.contacts[c].propertyId != id;
    assert s'.TenantsOf(id).Keys == {};
    assert s'.RequestsOf(id).Keys == {};
    assert s'.ContactsOf(id).Keys == {};
    assert s'.properties - {id} == s.properties;
    assert s'.tenants - {} == s.tenants;
    assert s'.requests - {} == s.requests;
    assert s'.contacts - {} == s.contacts;
  }

  /** Once a property is deleted, every list command on its id reports "not found" and no
      record of any table references it. */
  lemma DeletedPropertyIsGone(s: Store, pid: Id)
    requires pid in s.properties
    ensures var s' := DeleteProperty(s, pid);
      && ListTenants(s', pid) == NotFound
      && ListMaintenanceRequests(s', pid) == NotFound
      && ListContacts(s', pid) == NotFound
      && (forall t :: t in s'.tenants ==> s'.tenants[t].propertyId != pid)
      && (forall q :: q in s'.requests ==> s'.requests[q].propertyId != pid)
      && (forall c :: c in s'.contacts ==> s'.contacts[c].propertyId != pid)
  {
  }

  /** Deleting a property with N tenants, M maintenance requests and K contacts removes
      exactly N + M + K dependents. */
  lemma CascadeCount(s: Store, pid: Id)
    requires pid in s.properties
    ensures var s' := DeleteProperty(s, pid);
      && |s'.properties| == |s.properties| - 1
      && |s'.tenants| == |s.tenants| - |s.TenantsOf(pid)|
      && |s'.requests| == |s.requests| - |s.RequestsOf(pid)|
      && |s'.contacts| == |s.contacts| - |s.ContactsOf(pid)|
  {
  }

  /** Because `add-maintenance-request` does not look the property up, a request filed against
      the id the next property will receive is an orphan until that property is added, and
      then belongs to it (and goes with it when it is deleted). */
  lemma RequestAdoptedByNextProperty(
    s: Store, description: string, now: Timestamp,
    address: string, price: int, propertyDescription: string, imageUrl: string)
    requires s.NoOrphans()
    ensures var pid := NextId(s.properties.Keys);
      var rid := NextId(s.requests.Keys);
      var s1 := AddMaintenanceRequest(s, pid, description, now);
      var s2 := AddProperty(s1, address, price, propertyDescription, imageUrl);
      && !s1.NoOrphans()
      && s2.NoOrphans()
      && NextId(s1.properties.Keys) == pid
      && rid in s2.RequestsOf(pid)
      && rid !in DeleteProperty(s2, pid).requests
  {
  }

  /** Add "123 Main St" and tenant Alice to an empty store: both get id 1, Alice is listed, and
      after the property is deleted its tenants can no longer be listed. */
  lemma TenantScenario()
    ensures var s1 := AddProperty(Empty, "123 Main St", 250000, "", "");
      var s2 := AddTenant(s1, 1, "Alice");
      && s1.properties.Keys == {1}
      && s2.tenants.Keys == {1}
      && ListTenants(s2, 1) == Found(map[1 := Tenant(1, "Alice")])
      && ListTenants(DeleteProperty(s2, 1), 1) == NotFound
  {
    var s1 := AddProperty(Empty, "123 Main St", 250000, "", "");
    var s2 := AddTenant(s1, 1, "Alice");
    assert s2.TenantsOf(1) == map[1 := Tenant(1, "Alice")];
  }

  /** Add "5 Oak Ave" and a request for a leaky faucet: the request is pending; once it is
      deleted the property lists no requests. */
  lemma MaintenanceScenario(now: Timestamp)
    ensures var s1 := AddProperty(Empty, "5 Oak Ave", 0, "", "");
      var s2 := AddMaintenanceRequest(s1, 1, "Leaky faucet", now);
      && s1.properties.Keys == {1}
      && s2.requests.Keys == {1}
      && s2.requests[1].status == "Pending"
      && ListMaintenanceRequests(DeleteMaintenanceRequest(s2, 1), 1) == Found(map[])
  {
  }
}
