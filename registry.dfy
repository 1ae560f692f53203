/** The commands of estate_manager/cli.py as methods of one store object whose four tables they
    update in place. Each method's new state is the one the matching function of `Operations`
    gives, and its reply is the found / not-found outcome the command reports. */
module Commands {
  import opened Models
  import Operations

  class Registry {
    var properties: map<Id, Property>
    var tenants: map<Id, Tenant>
    var requests: map<Id, MaintenanceRequest>
    var contacts: map<Id, Contact>

    /** The four tables as one value. */
    function State(): Store
      reads this
    {
      Store(properties, tenants, requests, contacts)
    }

    /** A registry over freshly created, empty tables. */
    constructor ()
      ensures State() == Empty
    {
      properties, tenants, requests, contacts := map[], map[], map[], map[];
    }

    method AddProperty(address: string, price: int, description: string, imageUrl: string) returns (id: Id)
      modifies this
      ensures id !in old(properties) && id in properties
      ensures State() == Operations.AddProperty(old(State()), address, price, description, imageUrl)
    {
      id := NextId(properties.Keys);
      properties := properties[id := Property(address, Some(price), Some(description), Some(imageUrl))];
    }

    /** Replies with the updated property, or "not found". */
    method AddPropertyImage(pid: Id, imageUrl: string) returns (r: Lookup<Property>)
      modifies this
      ensures State() == Operations.AddPropertyImage(old(State()), pid, imageUrl)
      ensures r == if pid in old(properties) then Found(properties[pid]) else NotFound
    {
      if pid in properties {
        var p := properties[pid];
        p := p.(imageUrl := Some(imageUrl));
        properties := properties[pid := p];
        r := Found(p);
      } else {
        r := NotFound;
      }
    }

    /** Walks the properties one at a time, attaching each one's three relationships. */
    method ListProperties() returns (r: map<Id, Operations.PropertyView>)
      ensures r == Operations.ListProperties(State())
    {
      var todo := properties.Keys;
      r := map[];
      while todo != {}
        invariant todo <= properties.Keys
        invariant r.Keys == properties.Keys - todo
        invariant forall id :: id in r ==> r[id] == Operations.ListProperties(State())[id]
        decreases todo
      {
        // a witness, without which the choice of an int below is not known to be possible
        ghost var w := Element(todo);
        var id :| id in todo;
        var s := State();
        r := r[id := Operations.PropertyView(properties[id], s.TenantsOf(id), s.RequestsOf(id), s.ContactsOf(id))];
        todo := todo - {id};
      }
    }

    /** Replies with the new tenant's id, or "not found" when the property does not exist. */
    method AddTenant(pid: Id, name: string) returns (r: Lookup<Id>)
      modifies this
      ensures r == if pid in old(properties) then Found(NextId(old(tenants).Keys)) else NotFound
      ensures State() == Operations.AddTenant(old(State()), pid, name)
    {
      if pid in properties {
        var id := NextId(tenants.Keys);
        tenants := tenants[id := Tenant(pid, name)];
        r := Found(id);
      } else {
        r := NotFound;
      }
    }

    method ListTenants(pid: Id) returns (r: Lookup<map<Id, Tenant>>)
      ensures r == Operations.ListTenants(State(), pid)
    {
      if pid in properties {
        r := Found(State().TenantsOf(pid));
      } else {
        r := NotFound;
      }
    }

    /** Replies with the deleted property, or "not found". The cascade deletes the property's
        tenants, maintenance requests and contacts one by one, then the property itself. */
    method DeleteProperty(pid: Id) returns (r: Lookup<Property>)
      modifies this
      ensures r == if pid in old(properties) then Found(old(properties)[pid]) else NotFound
      ensures State() == Operations.DeleteProperty(old(State()), pid)
    {
      if pid !in properties {
        return NotFound;
      }
      r := Found(properties[pid]);
      ghost var before := State();

      var owned := State().TenantsOf(pid).Keys;
      while owned != {}
        invariant owned <= before.TenantsOf(pid).Keys
        invariant tenants == before.tenants - (before.TenantsOf(pid).Keys - owned)
        invariant properties == before.properties && requests == before.requests && contacts == before.contacts
        decreases owned
      {
        ghost var w := Element(owned);
        var t :| t in owned;
        var gone := DeleteTenant(t);
        owned := owned - {t};
      }

      owned := State().RequestsOf(pid).Keys;
      while owned != {}
        invariant owned <= before.RequestsOf(pid).Keys
        invariant requests == before.requests - (before.RequestsOf(pid).Keys - owned)
        invariant tenants == before.tenants - before.TenantsOf(pid).Keys
        invariant properties == before.properties && contacts == before.contacts
        decreases owned
      {
        ghost var w := Element(owned);
        var q :| q in owned;
        var gone := DeleteMaintenanceRequest(q);
        owned := owned - {q};
      }

      owned := State().ContactsOf(pid).Keys;
      while owned != {}
        invariant owned <= before.ContactsOf(pid).Keys
        invariant contacts == before.contacts - (before.ContactsOf(pid).Keys - owned)
        invariant tenants == before.tenants - before.TenantsOf(pid).Keys
        invariant requests == before.requests - before.RequestsOf(pid).Keys
        invariant properties == before.properties
        decreases owned
      {
        ghost var w := Element(owned);
        var c :| c in owned;
        var gone := DeleteContact(c);
        owned := owned - {c};
      }

      properties := properties - {pid};
    }

    /** Replies with the deleted tenant, or "not found". */
    method DeleteTenant(tid: Id) returns (r: Lookup<Tenant>)
      modifies this
      ensures r == if tid in old(tenants) then Found(old(tenants)[tid]) else NotFound
      ensures State() == Operations.DeleteTenant(old(State()), tid)
    {
      if tid in tenants {
        r := Found(tenants[tid]);
        tenants := tenants - {tid};
      } else {
        r := NotFound;
      }
    }

    /** Files a request against `pid` without looking the property up; `now` is the clock
        reading that becomes its request date. Replies with the new request's id. */
    method AddMaintenanceRequest(pid: Id, description: string, now: Timestamp) returns (id: Id)
      modifies this
      ensures id !in old(requests) && id in requests && requests[id].status == Pending
      ensures State() == Operations.AddMaintenanceRequest(old(State()), pid, description, now)
    {
      id := NextId(requests.Keys);
      requests := requests[id := MaintenanceRequest(pid, description, now, Pending)];
    }

    method ListMaintenanceRequests(pid: Id) returns (r: Lookup<map<Id, MaintenanceRequest>>)
      ensures r == Operations.ListMaintenanceRequests(State(), pid)
    {
      if pid in properties {
        r := Found(State().RequestsOf(pid));
      } else {
        r := NotFound;
      }
    }

    /** Replies with the deleted request, or "not found". */
    method DeleteMaintenanceRequest(rid: Id) returns (r: Lookup<MaintenanceRequest>)
      modifies this
      ensures r == if rid in old(requests) then Found(old(requests)[rid]) else NotFound
      ensures State() == Operations.DeleteMaintenanceRequest(old(State()), rid)
    {
      if rid in requests {
        r := Found(requests[rid]);
        requests := requests - {rid};
      } else {
        r := NotFound;
      }
    }

    /** Adds a contact to `pid` without looking the property up. Replies with the new id. */
    method AddContact(pid: Id, name: string, phone: string, email: string, role: string) returns (id: Id)
      modifies this
      ensures id !in old(contacts) && id in contacts
      ensures State() == Operations.AddContact(old(State()), pid, name, phone, email, role)
    {
      id := NextId(contacts.Keys);
      contacts := contacts[id := Contact(pid, name, Some(phone), Some(email), Some(role))];
    }

    method ListContacts(pid: Id) returns (r: Lookup<map<Id, Contact>>)
      ensures r == Operations.ListContacts(State(), pid)
    {
      if pid in properties {
        r := Found(State().ContactsOf(pid));
      } else {
        r := NotFound;
      }
    }

    /** Replies with the deleted contact, or "not found". */
    method DeleteContact(cid: Id) returns (r: Lookup<Contact>)
      modifies this
      ensures r == if cid in old(contacts) then Found(old(contacts)[cid]) else NotFound
      ensures State() == Operations.DeleteContact(old(State()), cid)
    {
      if cid in contacts {
        r := Found(contacts[cid]);
        contacts := contacts - {cid};
      } else {
        r := NotFound;
      }
    }
  }
}
