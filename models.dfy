/** Record shapes of the property registry and the integrity rules of its schema
    (estate_manager/models.py). */
module Models {

  /** A primary key: the integer row id of a record in its table. */
  type Id = int

  /** A reading of the UTC clock, supplied by whoever creates a maintenance request. */
  type Timestamp = int

  datatype Option<+T> = None | Some(value: T)

  /** What a command that looks a record up by id reports: the record, or "not found". */
  datatype Lookup<+T> = Found(value: T) | NotFound

  /** A row of `properties`. The address is required; the other columns are nullable. */
  datatype Property = Property(
    address: string,
    price: Option<int>,
    description: Option<string>,
    imageUrl: Option<string>)

  /** A row of `tenants`: the name is required. */
  datatype Tenant = Tenant(propertyId: Id, name: string)

  /** A row of `maintenance_requests`: the description is required. */
  datatype MaintenanceRequest = MaintenanceRequest(
    propertyId: Id,
    description: string,
    requestDate: Timestamp,
    status: string)

  /** A row of `contacts`: the name is required, phone, email and role are nullable. */
  datatype Contact = Contact(
    propertyId: Id,
    name: string,
    phone: Option<string>,
    email: Option<string>,
    role: Option<string>)

  /** The column default of `maintenance_requests.status`. */
  const Pending: string := "Pending"

  /** The four tables. Each is keyed by its primary key, so a lookup by id finds at most one record. */
  datatype Store = Store(
    properties: map<Id, Property>,
    tenants: map<Id, Tenant>,
    requests: map<Id, MaintenanceRequest>,
    contacts: map<Id, Contact>)
  {
    /** The `tenants` relationship of property `pid`. */
    function TenantsOf(pid: Id): map<Id, Tenant> {
      map id | id in tenants && tenants[id].propertyId == pid :: tenants[id]
    }

    /** The `maintenance_requests` relationship of property `pid`. */
    function RequestsOf(pid: Id): map<Id, MaintenanceRequest> {
      map id | id in requests && requests[id].propertyId == pid :: requests[id]
    }

    /** The `contacts` relationship of property `pid`. */
    function ContactsOf(pid: Id): map<Id, Contact> {
      map id | id in contacts && contacts[id].propertyId == pid :: contacts[id]
    }

    /** Referential integrity: every dependent references a property that exists. */
    predicate NoOrphans() {
      && (forall id :: id in tenants ==> tenants[id].propertyId in properties)
      && (forall id :: id in requests ==> requests[id].propertyId in properties)
      && (forall id :: id in contacts ==> contacts[id].propertyId in properties)
    }
  }

  /** A freshly initialised database. */
  const Empty: Store := Store(map[], map[], map[], map[])

  /** Some element of a non-empty set. */
  lemma Element<T>(s: set<T>) returns (x: T)
    requires s != {}
    ensures x in s
  {
    x :| x in s;
  }

  predicate IsLargest(ids: set<Id>, m: Id) {
    m in ids && forall k :: k in ids ==> k <= m
  }

  /** Every non-empty finite set of ids has a largest element. */
  lemma {:induction false} LargestExists(ids: set<Id>)
    requires ids != {}
    ensures exists m :: IsLargest(ids, m)
  {
    var x := Element(ids);
    if ids == {x} {
      assert IsLargest(ids, x);
    } else {
      var rest := ids - {x};
      LargestExists(rest);
      var m :| IsLargest(rest, m);
      assert ids == rest + {x};
      if x <= m {
        assert IsLargest(ids, m);
      } else {
        assert IsLargest(ids, x);
      }
    }
  }

  /** The largest id of a non-empty table. */
  function LargestId(ids: set<Id>): (m: Id)
    requires ids != {}
    ensures m in ids
    ensures forall k :: k in ids ==> k <= m
  {
    LargestExists(ids);
    var m :| IsLargest(ids, m); m
  }

  /** The row id SQLite gives a new row of an integer-primary-key table whose current keys are
      `ids`: 1 for an empty table, otherwise one more than the largest key. */
  function NextId(ids: set<Id>): (id: Id)
    ensures id !in ids
    ensures forall k :: k in ids ==> k < id
    ensures ids == {} ==> id == 1
    ensures ids != {} ==> id - 1 in ids
  {
    if ids == {} then 1 else LargestId(ids) + 1
  }
}
