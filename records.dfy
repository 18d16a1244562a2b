/** The /records routes (backend/src/records/index.ts) over the completion
    records table, which the class holds as a map from id to record. Creating
    and updating a record read the chores and children tables to check that
    the record refers to a chore and a child that exist; nothing here writes
    to those two tables. `newId` stands for `uuidv4()` and `now` for
    `new Date().toISOString()`. */
module Records {
  import opened Types
  import opened Http
  import Chores
  import Children

  const RecordsPath := "/records"
  const MissingRecordId := "Missing record ID"
  const RecordNotFound := "Record not found"
  const ChoreIdRequired := "ChoreId is required and must be a string"
  const ChildIdRequired := "ChildId is required and must be a string"
  const DateRequired := "Date is required and must be in YYYY-MM-DD format"

  datatype RecordReply = AllRecords(items: map<string, ChoreRecord>) | OneRecord(record: ChoreRecord) | RecordDeleted(id: string)

  /** What a POST or PUT body must carry, checked in the handler's order:
      choreId, childId, then a YYYY-MM-DD date. */
  datatype RecordFields = RecordFields(choreId: string, childId: string, date: string)

  function ParseRecordFields(body: Body): (r: Response<RecordFields>)
    ensures r.Success? <==>
              && body.Decoded?
              && RequiredString(body.fields, "choreId").Some?
              && RequiredString(body.fields, "childId").Some?
              && RequiredString(body.fields, "date").Some?
              && IsIsoDate(body.fields["date"].s)
    ensures r.Success? ==>
              && r.data == RecordFields(body.fields["choreId"].s, body.fields["childId"].s, body.fields["date"].s)
              && r.data.choreId != "" && r.data.childId != "" && IsIsoDate(r.data.date)
    ensures body.NoBody? ==> r == Failure(400, MissingBody)
    ensures body.Unparsable? ==> r == Failure(500, InternalError)
    ensures body.Decoded? && r.Failure? ==> r.code == 400
    ensures body.Decoded? && RequiredString(body.fields, "choreId").None? ==> r == Failure(400, ChoreIdRequired)
    ensures body.Decoded? && RequiredString(body.fields, "choreId").Some? && RequiredString(body.fields, "childId").None? ==>
              r == Failure(400, ChildIdRequired)
    ensures body.Decoded? && RequiredString(body.fields, "choreId").Some? && RequiredString(body.fields, "childId").Some? &&
            (RequiredString(body.fields, "date").None? || !IsIsoDate(body.fields["date"].s)) ==>
              r == Failure(400, DateRequired)
  {
    match body
    case NoBody => Failure(400, MissingBody)
    case Unparsable => Failure(500, InternalError)
    case Decoded(fields) =>
      match RequiredString(fields, "choreId")
      case None => Failure(400, ChoreIdRequired)
      case Some(choreId) =>
        match RequiredString(fields, "childId")
        case None => Failure(400, ChildIdRequired)
        case Some(childId) =>
          match RequiredString(fields, "date")
          case None => Failure(400, DateRequired)
          case Some(date) =>
            if !IsIsoDate(date) then Failure(400, DateRequired)
            else Success(RecordFields(choreId, childId, date))
  }

  class RecordTable {
    var items: map<string, ChoreRecord>

    /** Every record is stored under its own id. */
    ghost predicate Valid()
      reads this
    {
      forall id :: id in items ==> items[id].id == id
    }

    constructor ()
      ensures Valid() && items == map[]
    {
      items := map[];
    }

    /** GET /records */
    method List() returns (resp: Response<RecordReply>)
      ensures resp == Success(AllRecords(items))
    {
      resp := Success(AllRecords(items));
    }

    /** GET /records/{id} */
    method Get(pathId: Option<string>) returns (resp: Response<RecordReply>)
      ensures !HasId(pathId) ==> resp == Failure(400, MissingRecordId)
      ensures HasId(pathId) && pathId.value !in items ==> resp == Failure(404, RecordNotFound)
      ensures HasId(pathId) && pathId.value in items ==> resp == Success(OneRecord(items[pathId.value]))
    {
      if !HasId(pathId) {
        return Failure(400, MissingRecordId);
      }
      var id := pathId.value;
      if id !in items {
        return Failure(404, RecordNotFound);
      }
      resp := Success(OneRecord(items[id]));
    }

    /** POST /records: validate the body, then check that the chore and then
        the child exist, then store one new record. */
    method Create(body: Body, chores: Chores.ChoreTable, children: Children.ChildTable,
                  newId: string, now: string) returns (resp: Response<RecordReply>)
      requires Valid()
      modifies this
      ensures Valid()
      ensures resp.Failure? ==> items == old(items)
      ensures ParseRecordFields(body).Failure? ==> resp == ParseRecordFields(body).PropagateFailure()
      ensures ParseRecordFields(body).Success? ==>
                var f := ParseRecordFields(body).data;
                && (f.choreId !in chores.items ==> resp == Failure(404, Chores.ChoreNotFound))
                && (f.choreId in chores.items && f.childId !in children.items ==>
                      resp == Failure(404, Children.ChildNotFound))
      ensures resp.Success? <==>
                && ParseRecordFields(body).Success?
                && ParseRecordFields(body).data.choreId in chores.items
                && ParseRecordFields(body).data.childId in children.items
      ensures resp.Success? ==>
                var f := ParseRecordFields(body).data;
                var record := ChoreRecord(newId, f.choreId, f.childId, f.date, now, now);
                resp == Success(OneRecord(record)) && items == old(items)[newId := record]
    {
      var fields := ParseRecordFields(body);
      if fields.Failure? {
        return fields.PropagateFailure();
      }
      var f := fields.data;
      if f.choreId !in chores.items {
        return Failure(404, Chores.ChoreNotFound);
      }
      if f.childId !in children.items {
        return Failure(404, Children.ChildNotFound);
      }
      var record := ChoreRecord(newId, f.choreId, f.childId, f.date, now, now);
      items := items[newId := record];
      resp := Success(OneRecord(record));
    }

    /** PUT /records/{id}: the id, the body, the record, the chore and the
        child are checked in that order and the first failure answers; only
        the chore, the child, the date and the update time of that one record
        change. */
    method Update(pathId: Option<string>, body: Body, chores: Chores.ChoreTable, children: Children.ChildTable,
                  now: string) returns (resp: Response<RecordReply>)
      requires Valid()
      modifies this
      ensures Valid()
      ensures resp.Failure? ==> items == old(items)
      ensures !HasId(pathId) ==> resp == Failure(400, MissingRecordId)
      ensures HasId(pathId) && ParseRecordFields(body).Failure? ==> resp == ParseRecordFields(body).PropagateFailure()
      ensures HasId(pathId) && ParseRecordFields(body).Success? ==>
                var f := ParseRecordFields(body).data;
                && (pathId.value !in old(items) ==> resp == Failure(404, RecordNotFound))
                && (pathId.value in old(items) && f.choreId !in chores.items ==>
                      resp == Failure(404, Chores.ChoreNotFound))
                && (pathId.value in old(items) && f.choreId in chores.items && f.childId !in children.items ==>
                      resp == Failure(404, Children.ChildNotFound))
      ensures resp.Success? <==>
                && HasId(pathId)
                && ParseRecordFields(body).Success?
                && pathId.value in old(items)
                && ParseRecordFields(body).data.choreId in chores.items
                && ParseRecordFields(body).data.childId in children.items
      ensures resp.Success? ==>
                var id, f := pathId.value, ParseRecordFields(body).data;
                var record := old(items)[id].(choreId := f.choreId, childId := f.childId, date := f.date, updatedAt := now);
                resp == Success(OneRecord(record)) && items == old(items)[id := record]
    {
      if !HasId(pathId) {
        return Failure(400, MissingRecordId);
      }
      var id := pathId.value;
      var fields := ParseRecordFields(body);
      if fields.Failure? {
        return fields.PropagateFailure();
      }
      var f := fields.data;
      if id !in items {
        return Failure(404, RecordNotFound);
      }
      if f.choreId !in chores.items {
        return Failure(404, Chores.ChoreNotFound);
      }
      if f.childId !in children.items {
        return Failure(404, Children.ChildNotFound);
      }
      var record := items[id].(choreId := f.choreId, childId := f.childId, date := f.date, updatedAt := now);
      items := items[id := record];
      resp := Success(OneRecord(record));
    }

    /** DELETE /records/{id}: removes that one key and nothing else. */
    method Delete(pathId: Option<string>) returns (resp: Response<RecordReply>)
      requires Valid()
      modifies this
      ensures Valid()
      ensures !HasId(pathId) ==> resp == Failure(400, MissingRecordId) && items == old(items)
      ensures HasId(pathId) && pathId.value !in old(items) ==>
                resp == Failure(404, RecordNotFound) && items == old(items)
      ensures HasId(pathId) && pathId.value in old(items) ==>
                resp == Success(RecordDeleted(pathId.value)) && items == old(items) - {pathId.value}
    {
      if !HasId(pathId) {
        return Failure(400, MissingRecordId);
      }
      var id := pathId.value;
      if id !in items {
        return Failure(404, RecordNotFound);
      }
      items := items - {id};
      resp := Success(RecordDeleted(id));
    }

    /** The handler: the first route whose method and path match, else 404. */
    method Handle(req: Request, chores: Chores.ChoreTable, children: Children.ChildTable,
                  newId: string, now: string) returns (resp: Response<RecordReply>)
      requires Valid()
      modifies this
      ensures Valid()
      ensures RouteOf(req.httpMethod, req.path, RecordsPath).NoRoute? ==>
                resp == Failure(404, RouteNotFound) && items == old(items)
      ensures RouteOf(req.httpMethod, req.path, RecordsPath) in {ListAll, GetOne} ==> items == old(items)
      ensures resp.Failure? ==> items == old(items)
    {
      match RouteOf(req.httpMethod, req.path, RecordsPath)
      case ListAll => resp := List();
      case GetOne => resp := Get(req.pathId);
      case CreateOne => resp := Create(req.body, chores, children, newId, now);
      case UpdateOne => resp := Update(req.pathId, req.body, chores, children, now);
      case DeleteOne => resp := Delete(req.pathId);
      case NoRoute => resp := Failure(404, RouteNotFound);
    }
  }
}
