/** The documents the billing engine reads besides items and bills:
    customers (models/Customer.js), services (models/Service.js) and work
    orders (models/WorkOrder.js). Each carries the id and the owner
    (`createdBy`) the controllers scope their queries by. */
module Records {
  import opened Common

  datatype Customer = Customer(
    id: Id,
    owner: Id,
    name: string,
    phone: string,
    whatsapp: string,
    address: string,
    deleted: bool)

  datatype Service = Service(id: Id, owner: Id, name: string, price: int, deleted: bool)

  datatype WorkOrderStatus = WorkPending | WorkCompleted

  datatype WorkOrder = WorkOrder(
    id: Id,
    owner: Id,
    customer: Id,
    number: string,
    workOrderType: string,
    scheduleDate: int,
    scheduleTime: string,
    remark: string,
    status: WorkOrderStatus,
    completedAt: Option<int>,
    billId: Option<Id>)

  /** `Customer.findOne({ _id, createdBy, deleted: false })`. */
  function FindLiveCustomer(customers: seq<Customer>, owner: Id, id: Id): (r: Option<nat>)
    ensures r.Some? ==> r.value < |customers| && customers[r.value].id == id
                        && customers[r.value].owner == owner && !customers[r.value].deleted
    ensures r.None? <==> forall k :: 0 <= k < |customers| ==>
              !(customers[k].id == id && customers[k].owner == owner && !customers[k].deleted)
  {
    FindIndex(customers, (c: Customer) => c.id == id && c.owner == owner && !c.deleted)
  }

  /** `Service.findOne({ _id, createdBy, deleted: false })`. */
  function FindLiveService(services: seq<Service>, owner: Id, id: Id): (r: Option<nat>)
    ensures r.Some? ==> r.value < |services| && services[r.value].id == id
                        && services[r.value].owner == owner && !services[r.value].deleted
    ensures r.None? <==> forall k :: 0 <= k < |services| ==>
              !(services[k].id == id && services[k].owner == owner && !services[k].deleted)
  {
    FindIndex(services, (s: Service) => s.id == id && s.owner == owner && !s.deleted)
  }

  /** `WorkOrder.findById(id)`: any owner. */
  function FindWorkOrder(orders: seq<WorkOrder>, id: Id): (r: Option<nat>)
    ensures r.Some? ==> r.value < |orders| && orders[r.value].id == id
    ensures r.None? <==> forall k :: 0 <= k < |orders| ==> orders[k].id != id
  {
    FindIndex(orders, (w: WorkOrder) => w.id == id)
  }
}
