/**
 * The HTTP route handlers, reduced to the response each one chooses: a
 * status code and what goes in the body. Serialisation and the transport
 * are not modelled; a handler is the store operation it calls followed by
 * the choice of response for that operation's outcome.
 */
module Routes {
  import opened Tables
  import opened Dashboard

  datatype Body<T> = NoBody | Json(item: T) | JsonList(items: seq<T>) | Message(text: string)

  datatype Response<T> = Response(status: nat, body: Body<T>)

  const NotFoundText := "Not found"

  predicate IsSuccess(status: nat)
  {
    200 <= status < 300
  }

  /** A listing always succeeds with the whole table as its body. */
  function ListResponse<T>(items: seq<T>): (resp: Response<T>)
    ensures resp.status == 200 && IsSuccess(resp.status)
    ensures resp.body == JsonList(items)
  {
    Response(200, JsonList(items))
  }

  /** A lookup or update answers 404 with an empty body when it found
      nothing, and otherwise 200 with the record it found or stored. */
  function FoundResponse<T>(found: Option<T>): (resp: Response<T>)
    ensures resp.status == 404 <==> found.None?
    ensures IsSuccess(resp.status) <==> found.Some?
    ensures found.None? ==> resp.body == NoBody
    ensures found.Some? ==> resp.status == 200 && resp.body == Json(found.value)
  {
    match found
    case None => Response(404, NoBody)
    case Some(item) => Response(200, Json(item))
  }

  /** A creation always answers 201 with the stored record. */
  function CreatedResponse<T>(item: T): (resp: Response<T>)
    ensures resp.status == 201 && IsSuccess(resp.status)
    ensures resp.body == Json(item)
  {
    Response(201, Json(item))
  }

  /** A deletion answers 204 with no body when it removed a record, and 404
      with a "Not found" message otherwise. */
  function DeleteResponse<T>(success: bool): (resp: Response<T>)
    ensures IsSuccess(resp.status) <==> success
    ensures success ==> resp.status == 204 && resp.body == NoBody
    ensures !success ==> resp.status == 404 && resp.body == Message(NotFoundText)
  {
    if success then Response(204, NoBody) else Response(404, Message(NotFoundText))
  }

  /** Deleting the same id twice, when exactly one record carried it,
      answers 204 and then 404. */
  lemma DeleteTwiceResponses<T>(t: seq<Record<T>>, id: int)
    requires Count(t, id) == 1
    ensures DeleteResponse<T>(!Absent(t, id)).status == 204
    ensures DeleteResponse<T>(!Absent(Remove(t, id), id)).status == 404
  {
    RemoveUniqueTwice(t, id);
  }

  // --- Fitness classes ---

  /** GET /api/classes */
  method HandleListClasses(s: Store) returns (resp: Response<FitnessClass>)
    ensures resp.status == 200 && resp.body == JsonList(s.fitnessClasses)
  {
    resp := ListResponse(s.GetAllClasses());
  }

  /** GET /api/classes/:id */
  method HandleGetClass(s: Store, id: int) returns (resp: Response<FitnessClass>)
    ensures resp.status == 404 <==> Absent(s.fitnessClasses, id)
    ensures resp.status == 404 ==> resp.body == NoBody
    ensures resp.status != 404 ==>
      resp.status == 200 && resp.body.Json? && resp.body.item.id == id && resp.body.item in s.fitnessClasses
    ensures resp.status != 404 ==> s.GetClassById(id) == Some(resp.body.item)
  {
    resp := FoundResponse(s.GetClassById(id));
  }

  /** POST /api/classes */
  method HandlePostClass(s: Store, body: FitnessClass) returns (resp: Response<FitnessClass>)
    modifies s
    ensures resp == Response(201, Json(body.(id := old(s.nextClassId))))
    ensures s.fitnessClasses == old(s.fitnessClasses) + [body.(id := old(s.nextClassId))]
    ensures s.nextClassId == old(s.nextClassId) + 1
    ensures s.memberPlans == old(s.memberPlans) && s.nextPlanId == old(s.nextPlanId)
  {
    var added := s.CreateClass(body);
    resp := CreatedResponse(added);
  }

  /** PUT /api/classes/:id */
  method HandlePutClass(s: Store, id: int, body: FitnessClass) returns (resp: Response<FitnessClass>)
    modifies s
    ensures resp.status == 404 <==> Absent(old(s.fitnessClasses), id)
    ensures resp.status == 404 ==> resp.body == NoBody && s.fitnessClasses == old(s.fitnessClasses)
    ensures resp.status != 404 ==> resp == Response(200, Json(body.(id := id)))
    ensures s.fitnessClasses == Replace(old(s.fitnessClasses), id, body)
    ensures s.nextClassId == old(s.nextClassId)
    ensures s.memberPlans == old(s.memberPlans) && s.nextPlanId == old(s.nextPlanId)
  {
    var updated := s.UpdateClass(id, body);
    resp := FoundResponse(updated);
  }

  /** DELETE /api/classes/:id */
  method HandleDeleteClass(s: Store, id: int) returns (resp: Response<FitnessClass>)
    modifies s
    ensures resp.status == 204 <==> !Absent(old(s.fitnessClasses), id)
    ensures resp.status == 204 ==> resp.body == NoBody
    ensures resp.status != 204 ==> resp == Response(404, Message(NotFoundText))
    ensures s.fitnessClasses == Remove(old(s.fitnessClasses), id)
    ensures s.nextClassId == old(s.nextClassId)
    ensures s.memberPlans == old(s.memberPlans) && s.nextPlanId == old(s.nextPlanId)
  {
    var success := s.DeleteClass(id);
    resp := DeleteResponse(success);
  }

  // --- Member plans ---

  /** GET /api/plans */
  method HandleListPlans(s: Store) returns (resp: Response<MemberPlan>)
    ensures resp.status == 200 && resp.body == JsonList(s.memberPlans)
  {
    resp := ListResponse(s.GetAllPlans());
  }

  /** POST /api/plan */
  method HandlePostPlan(s: Store, body: MemberPlan) returns (resp: Response<MemberPlan>)
    modifies s
    ensures resp == Response(201, Json(body.(id := old(s.nextPlanId))))
    ensures s.memberPlans == old(s.memberPlans) + [body.(id := old(s.nextPlanId))]
    ensures s.nextPlanId == old(s.nextPlanId) + 1
    ensures s.fitnessClasses == old(s.fitnessClasses) && s.nextClassId == old(s.nextClassId)
  {
    var added := s.CreatePlan(body);
    resp := CreatedResponse(added);
  }

  /** PUT /api/plan/:id */
  method HandlePutPlan(s: Store, id: int, body: MemberPlan) returns (resp: Response<MemberPlan>)
    modifies s
    ensures resp.status == 404 <==> Absent(old(s.memberPlans), id)
    ensures resp.status == 404 ==> resp.body == NoBody && s.memberPlans == old(s.memberPlans)
    ensures resp.status != 404 ==> resp == Response(200, Json(body.(id := id)))
    ensures s.memberPlans == Replace(old(s.memberPlans), id, body)
    ensures s.nextPlanId == old(s.nextPlanId)
    ensures s.fitnessClasses == old(s.fitnessClasses) && s.nextClassId == old(s.nextClassId)
  {
    var updated := s.UpdatePlan(id, body);
    resp := FoundResponse(updated);
  }

  /** DELETE /api/plan/:id */
  method HandleDeletePlan(s: Store, id: int) returns (resp: Response<MemberPlan>)
    modifies s
    ensures resp.status == 204 <==> !Absent(old(s.memberPlans), id)
    ensures resp.status == 204 ==> resp.body == NoBody
    ensures resp.status != 204 ==> resp == Response(404, Message(NotFoundText))
    ensures s.memberPlans == Remove(old(s.memberPlans), id)
    ensures s.nextPlanId == old(s.nextPlanId)
    ensures s.fitnessClasses == old(s.fitnessClasses) && s.nextClassId == old(s.nextClassId)
  {
    var success := s.DeletePlan(id);
    resp := DeleteResponse(success);
  }
}
