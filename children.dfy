/** The /children routes (backend/src/children/index.ts) over the children
    table, which the class holds as a map from id to child. `newId` stands for
    `uuidv4()` and `now` for `new Date().toISOString()`. */
module Children {
  import opened Types
  import opened Http

  const ChildrenPath := "/children"
  const MissingChildId := "Missing child ID"
  const ChildNotFound := "Child not found"

  datatype ChildReply = AllChildren(items: map<string, Child>) | OneChild(child: Child) | ChildDeleted(id: string)

  /** The name a POST or PUT body must carry, with the answer when it does not. */
  function ChildName(body: Body): (r: Response<string>)
    ensures r.Success? <==> body.Decoded? && RequiredString(body.fields, "name").Some?
    ensures r.Success? ==> r.data != "" && r.data == body.fields["name"].s
    ensures body.NoBody? ==> r == Failure(400, MissingBody)
    ensures body.Unparsable? ==> r == Failure(500, InternalError)
    ensures body.Decoded? && r.Failure? ==> r == Failure(400, NameRequired)
  {
    match body
    case NoBody => Failure(400, MissingBody)
    case Unparsable => Failure(500, InternalError)
    case Decoded(fields) =>
      match RequiredString(fields, "name")
      case None => Failure(400, NameRequired)
      case Some(name) => Success(name)
  }

  class ChildTable {
    var items: map<string, Child>

    /** Every child is stored under its own id. */
    ghost predicate Valid()
      reads this
    {
      forall id :: id in items ==> items[id].id == id
    }

    constructor ()
      ensures Valid() && items == map[]
    {
      items := map[];
    }

    /** GET /children */
    method List() returns (resp: Response<ChildReply>)
      ensures resp == Success(AllChildren(items))
    {
      resp := Success(AllChildren(items));
    }

    /** GET /children/{id} */
    method Get(pathId: Option<string>) returns (resp: Response<ChildReply>)
      ensures !HasId(pathId) ==> resp == Failure(400, MissingChildId)
      ensures HasId(pathId) && pathId.value !in items ==> resp == Failure(404, ChildNotFound)
      ensures HasId(pathId) && pathId.value in items ==> resp == Success(OneChild(items[pathId.value]))
    {
      if !HasId(pathId) {
        return Failure(400, MissingChildId);
      }
      var id := pathId.value;
      if id !in items {
        return Failure(404, ChildNotFound);
      }
      resp := Success(OneChild(items[id]));
    }

    /** POST /children: validate, then store one new child. */
    method Create(body: Body, newId: string, now: string) returns (resp: Response<ChildReply>)
      requires Valid()
      modifies this
      ensures Valid()
      ensures resp.Success? <==> ChildName(body).Success?
      ensures resp.Failure? ==> resp == ChildName(body).PropagateFailure() && items == old(items)
      ensures resp.Success? ==>
                var child := Child(newId, ChildName(body).data, now, now);
                resp == Success(OneChild(child)) && items == old(items)[newId := child]
    {
      var name := ChildName(body);
      if name.Failure? {
        return name.PropagateFailure();
      }
      var child := Child(newId, name.data, now, now);
      items := items[newId := child];
      resp := Success(OneChild(child));
    }

    /** PUT /children/{id}: the id, then the body, then existence; only the
        name and the update time of that one child change. */
    method Update(pathId: Option<string>, body: Body, now: string) returns (resp: Response<ChildReply>)
      requires Valid()
      modifies this
      ensures Valid()
      ensures resp.Failure? ==> items == old(items)
      ensures !HasId(pathId) ==> resp == Failure(400, MissingChildId)
      ensures HasId(pathId) && ChildName(body).Failure? ==> resp == ChildName(body).PropagateFailure()
      ensures HasId(pathId) && ChildName(body).Success? && pathId.value !in old(items) ==>
                resp == Failure(404, ChildNotFound)
      ensures resp.Success? <==> HasId(pathId) && ChildName(body).Success? && pathId.value in old(items)
      ensures resp.Success? ==>
                var id := pathId.value;
                var child := old(items)[id].(name := ChildName(body).data, updatedAt := now);
                resp == Success(OneChild(child)) && items == old(items)[id := child]
    {
      if !HasId(pathId) {
        return Failure(400, MissingChildId);
      }
      var id := pathId.value;
      var name := ChildName(body);
      if name.Failure? {
        return name.PropagateFailure();
      }
      if id !in items {
        return Failure(404, ChildNotFound);
      }
      var child := items[id].(name := name.data, updatedAt := now);
      items := items[id := child];
      resp := Success(OneChild(child));
    }

    /** DELETE /children/{id}: removes that one key and nothing else. */
    method Delete(pathId: Option<string>) returns (resp: Response<ChildReply>)
      requires Valid()
      modifies this
      ensures Valid()
      ensures !HasId(pathId) ==> resp == Failure(400, MissingChildId) && items == old(items)
      ensures HasId(pathId) && pathId.value !in old(items) ==>
                resp == Failure(404, ChildNotFound) && items == old(items)
      ensures HasId(pathId) && pathId.value in old(items) ==>
                resp == Success(ChildDeleted(pathId.value)) && items == old(items) - {pathId.value}
    {
      if !HasId(pathId) {
        return Failure(400, MissingChildId);
      }
      var id := pathId.value;
      if id !in items {
        return Failure(404, ChildNotFound);
      }
      items := items - {id};
      resp := Success(ChildDeleted(id));
    }

    /** The handler: the first route whose method and path match, else 404. */
    method Handle(req: Request, newId: string, now: string) returns (resp: Response<ChildReply>)
      requires Valid()
      modifies this
      ensures Valid()
      ensures RouteOf(req.httpMethod, req.path, ChildrenPath).NoRoute? ==>
                resp == Failure(404, RouteNotFound) && items == old(items)
      ensures RouteOf(req.httpMethod, req.path, ChildrenPath) in {ListAll, GetOne} ==> items == old(items)
      ensures resp.Failure? ==> items == old(items)
    {
      match RouteOf(req.httpMethod, req.path, ChildrenPath)
      case ListAll => resp := List();
      case GetOne => resp := Get(req.pathId);
      case CreateOne => resp := Create(req.body, newId, now);
      case UpdateOne => resp := Update(req.pathId, req.body, now);
      case DeleteOne => resp := Delete(req.pathId);
      case NoRoute => resp := Failure(404, RouteNotFound);
    }
  }
}
