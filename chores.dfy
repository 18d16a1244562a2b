/** The /chores routes (backend/src/chores/index.ts) over the chores table,
    which the class holds as a map from id to chore. `newId` stands for
    `uuidv4()` and `now` for `new Date().toISOString()`. */
module Chores {
  import opened Types
  import opened Http

  const ChoresPath := "/chores"
  const MissingChoreId := "Missing chore ID"
  const ChoreNotFound := "Chore not found"
  const PriceRequired := "Price is required and must be a positive number"

  datatype ChoreReply = AllChores(items: map<string, Chore>) | OneChore(chore: Chore) | ChoreDeleted(id: string)

  /** The name and price a POST or PUT body must carry, in the order the
      handler checks them, with the 400 it answers for the first one missing. */
  function ChoreFields(body: Body): (r: Response<(string, int)>)
    ensures r.Success? <==> body.Decoded? && RequiredString(body.fields, "name").Some?
                            && PositiveNumber(body.fields, "price").Some?
    ensures r.Success? ==> r.data == (body.fields["name"].s, body.fields["price"].n) && r.data.0 != "" && r.data.1 > 0
    ensures body.NoBody? ==> r == Failure(400, MissingBody)
    ensures body.Unparsable? ==> r == Failure(500, InternalError)
    ensures body.Decoded? && r.Failure? ==> r.code == 400
    ensures body.Decoded? && RequiredString(body.fields, "name").None? ==> r == Failure(400, NameRequired)
    ensures body.Decoded? && RequiredString(body.fields, "name").Some? && PositiveNumber(body.fields, "price").None? ==>
              r == Failure(400, PriceRequired)
  {
    match body
    case NoBody => Failure(400, MissingBody)
    case Unparsable => Failure(500, InternalError)
    case Decoded(fields) =>
      match RequiredString(fields, "name")
      case None => Failure(400, NameRequired)
      case Some(name) =>
        match PositiveNumber(fields, "price")
        case None => Failure(400, PriceRequired)
        case Some(price) => Success((name, price))
  }

  class ChoreTable {
    var items: map<string, Chore>

    /** Every chore is stored under its own id and has a positive price. */
    ghost predicate Valid()
      reads this
    {
      forall id :: id in items ==> items[id].id == id && items[id].price > 0
    }

    constructor ()
      ensures Valid() && items == map[]
    {
      items := map[];
    }

    /** GET /chores */
    method List() returns (resp: Response<ChoreReply>)
      ensures resp == Success(AllChores(items))
    {
      resp := Success(AllChores(items));
    }

    /** GET /chores/{id} */
    method Get(pathId: Option<string>) returns (resp: Response<ChoreReply>)
      ensures !HasId(pathId) ==> resp == Failure(400, MissingChoreId)
      ensures HasId(pathId) && pathId.value !in items ==> resp == Failure(404, ChoreNotFound)
      ensures HasId(pathId) && pathId.value in items ==> resp == Success(OneChore(items[pathId.value]))
    {
      if !HasId(pathId) {
        return Failure(400, MissingChoreId);
      }
      var id := pathId.value;
      if id !in items {
        return Failure(404, ChoreNotFound);
      }
      resp := Success(OneChore(items[id]));
    }

    /** POST /chores: validate, then store one new chore. */
    method Create(body: Body, newId: string, now: string) returns (resp: Response<ChoreReply>)
      requires Valid()
      modifies this
      ensures Valid()
      ensures resp.Success? <==> ChoreFields(body).Success?
      ensures resp.Failure? ==> resp == ChoreFields(body).PropagateFailure() && items == old(items)
      ensures resp.Success? ==>
                var (name, price) := ChoreFields(body).data;
                var chore := Chore(newId, name, price, now, now);
                resp == Success(OneChore(chore)) && items == old(items)[newId := chore]
    {
      var fields := ChoreFields(body);
      if fields.Failure? {
        return fields.PropagateFailure();
      }
      var (name, price) := fields.data;
      var chore := Chore(newId, name, price, now, now);
      items := items[newId := chore];
      resp := Success(OneChore(chore));
    }

    /** PUT /chores/{id}: the id, then the body, then existence; only the
        name, the price and the update time of that one chore change. */
    method Update(pathId: Option<string>, body: Body, now: string) returns (resp: Response<ChoreReply>)
      requires Valid()
      modifies this
      ensures Valid()
      ensures resp.Failure? ==> items == old(items)
      ensures !HasId(pathId) ==> resp == Failure(400, MissingChoreId)
      ensures HasId(pathId) && ChoreFields(body).Failure? ==> resp == ChoreFields(body).PropagateFailure()
      ensures HasId(pathId) && ChoreFields(body).Success? && pathId.value !in old(items) ==>
                resp == Failure(404, ChoreNotFound)
      ensures resp.Success? <==> HasId(pathId) && ChoreFields(body).Success? && pathId.value in old(items)
      ensures resp.Success? ==>
                var id := pathId.value;
                var (name, price) := ChoreFields(body).data;
                var chore := old(items)[id].(name := name, price := price, updatedAt := now);
                resp == Success(OneChore(chore)) && items == old(items)[id := chore]
    {
      if !HasId(pathId) {
        return Failure(400, MissingChoreId);
      }
      var id := pathId.value;
      var fields := ChoreFields(body);
      if fields.Failure? {
        return fields.PropagateFailure();
      }
      if id !in items {
        return Failure(404, ChoreNotFound);
      }
      var (name, price) := fields.data;
      var chore := items[id].(name := name, price := price, updatedAt := now);
      items := items[id := chore];
      resp := Success(OneChore(chore));
    }

    /** DELETE /chores/{id}: removes that one key and nothing else. */
    method Delete(pathId: Option<string>) returns (resp: Response<ChoreReply>)
      requires Valid()
      modifies this
      ensures Valid()
      ensures !HasId(pathId) ==> resp == Failure(400, MissingChoreId) && items == old(items)
      ensures HasId(pathId) && pathId.value !in old(items) ==>
                resp == Failure(404, ChoreNotFound) && items == old(items)
      ensures HasId(pathId) && pathId.value in old(items) ==>
                resp == Success(ChoreDeleted(pathId.value)) && items == old(items) - {pathId.value}
    {
      if !HasId(pathId) {
        return Failure(400, MissingChoreId);
      }
      var id := pathId.value;
      if id !in items {
        return Failure(404, ChoreNotFound);
      }
      items := items - {id};
      resp := Success(ChoreDeleted(id));
    }

    /** The handler: the first route whose method and path match, else 404. */
    method Handle(req: Request, newId: string, now: string) returns (resp: Response<ChoreReply>)
      requires Valid()
      modifies this
      ensures Valid()
      ensures RouteOf(req.httpMethod, req.path, ChoresPath).NoRoute? ==>
                resp == Failure(404, RouteNotFound) && items == old(items)
      ensures RouteOf(req.httpMethod, req.path, ChoresPath) in {ListAll, GetOne} ==> items == old(items)
      ensures resp.Failure? ==> items == old(items)
    {
      match RouteOf(req.httpMethod, req.path, ChoresPath)
      case ListAll => resp := List();
      case GetOne => resp := Get(req.pathId);
      case CreateOne => resp := Create(req.body, newId, now);
      case UpdateOne => resp := Update(req.pathId, req.body, now);
      case DeleteOne => resp := Delete(req.pathId);
      case NoRoute => resp := Failure(404, RouteNotFound);
    }
  }
}
