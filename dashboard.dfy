/**
 * The dashboard's in-memory store: two tables, fitness classes and member
 * plans, each with its own id counter, and the operations the route
 * handlers call on them. Every operation finds records by linear search
 * and only ever reads or writes the `id` of a record; the other fields are
 * carried along untouched.
 */
module Dashboard {
  import opened Tables

  datatype ClassFields = ClassFields(name: string, time: string, day: string, trainer: string)
  datatype PlanFields = PlanFields(name: string, duration: int, price: int)

  type FitnessClass = Record<ClassFields>
  type MemberPlan = Record<PlanFields>

  class Store {
    var nextClassId: nat
    var nextPlanId: nat
    var fitnessClasses: seq<FitnessClass>
    var memberPlans: seq<MemberPlan>

    /** Both counters start at 1; the seed records are given, since their
        ids are taken from the clock. */
    constructor (classes: seq<FitnessClass>, plans: seq<MemberPlan>)
      ensures nextClassId == 1 && nextPlanId == 1
      ensures fitnessClasses == classes && memberPlans == plans
    {
      nextClassId := 1;
      nextPlanId := 1;
      fitnessClasses := classes;
      memberPlans := plans;
    }

    // --- Fitness classes ---

    /** The live class table, in stored order. */
    function GetAllClasses(): (all: seq<FitnessClass>)
      reads this
      ensures all == fitnessClasses
    {
      fitnessClasses
    }

    /** The first class whose id is `id`, or nothing when no class has it. */
    function GetClassById(id: int): (found: Option<FitnessClass>)
      reads this
      ensures found.None? <==> Absent(fitnessClasses, id)
      ensures found.Some? ==> found.value.id == id && found.value in fitnessClasses
      ensures found.Some? ==> forall i :: IsFirstMatch(fitnessClasses, id, i) ==> fitnessClasses[i] == found.value
    {
      FirstMatchUniqueAll(fitnessClasses, id);
      Lookup(fitnessClasses, id)
    }

    /** Stamps the next class id on `cls` and appends it. */
    method CreateClass(cls: FitnessClass) returns (added: FitnessClass)
      modifies this`nextClassId, this`fitnessClasses
      ensures added == cls.(id := old(nextClassId))
      ensures nextClassId == old(nextClassId) + 1
      ensures fitnessClasses == old(fitnessClasses) + [added]
      ensures GetClassById(added.id).Some? && GetClassById(added.id).value.id == added.id
      ensures Absent(old(fitnessClasses), added.id) ==> GetClassById(added.id) == Some(added)
      ensures memberPlans == old(memberPlans) && nextPlanId == old(nextPlanId)
    {
      added := cls.(id := nextClassId);
      nextClassId := nextClassId + 1;
      LookupAppended(fitnessClasses, added);
      fitnessClasses := fitnessClasses + [added];
    }

    /** Replaces the first class whose id is `id` by `cls`, with its id
        forced to `id`; nothing when no class has that id. */
    method UpdateClass(id: int, cls: FitnessClass) returns (updated: Option<FitnessClass>)
      modifies this`fitnessClasses
      ensures updated == if Absent(old(fitnessClasses), id) then None else Some(cls.(id := id))
      ensures fitnessClasses == Replace(old(fitnessClasses), id, cls)
      ensures updated.Some? ==> GetClassById(id) == updated
      ensures nextClassId == old(nextClassId)
      ensures memberPlans == old(memberPlans) && nextPlanId == old(nextPlanId)
    {
      var index := FindIndex(fitnessClasses, id);
      if index == -1 {
        return None;
      }
      FirstMatchUnique(fitnessClasses, id, index);
      LookupReplaced(fitnessClasses, id, cls, id);
      var c := cls.(id := id);
      fitnessClasses := fitnessClasses[index := c];
      updated := Some(c);
    }

    /** Cuts out the first class whose id is `id`; reports whether there was one. */
    method DeleteClass(id: int) returns (success: bool)
      modifies this`fitnessClasses
      ensures success <==> !Absent(old(fitnessClasses), id)
      ensures fitnessClasses == Remove(old(fitnessClasses), id)
      ensures nextClassId == old(nextClassId)
      ensures memberPlans == old(memberPlans) && nextPlanId == old(nextPlanId)
    {
      var index := FindIndex(fitnessClasses, id);
      if index == -1 {
        return false;
      }
      FirstMatchUnique(fitnessClasses, id, index);
      fitnessClasses := fitnessClasses[..index] + fitnessClasses[index + 1..];
      success := true;
    }

    // --- Member plans ---

    /** The live plan table, in stored order. */
    function GetAllPlans(): (all: seq<MemberPlan>)
      reads this
      ensures all == memberPlans
    {
      memberPlans
    }

    /** Stamps the next plan id on `plan` and appends it. */
    method CreatePlan(plan: MemberPlan) returns (added: MemberPlan)
      modifies this`nextPlanId, this`memberPlans
      ensures added == plan.(id := old(nextPlanId))
      ensures nextPlanId == old(nextPlanId) + 1
      ensures memberPlans == old(memberPlans) + [added]
      ensures Lookup(memberPlans, added.id).Some? && Lookup(memberPlans, added.id).value.id == added.id
      ensures Absent(old(memberPlans), added.id) ==> Lookup(memberPlans, added.id) == Some(added)
      ensures fitnessClasses == old(fitnessClasses) && nextClassId == old(nextClassId)
    {
      added := plan.(id := nextPlanId);
      nextPlanId := nextPlanId + 1;
      LookupAppended(memberPlans, added);
      memberPlans := memberPlans + [added];
    }

    /** Replaces the first plan whose id is `id` by `plan`, with its id
        forced to `id`; nothing when no plan has that id. */
    method UpdatePlan(id: int, plan: MemberPlan) returns (updated: Option<MemberPlan>)
      modifies this`memberPlans
      ensures updated == if Absent(old(memberPlans), id) then None else Some(plan.(id := id))
      ensures memberPlans == Replace(old(memberPlans), id, plan)
      ensures updated.Some? ==> Lookup(memberPlans, id) == updated
      ensures nextPlanId == old(nextPlanId)
      ensures fitnessClasses == old(fitnessClasses) && nextClassId == old(nextClassId)
    {
      var index := FindIndex(memberPlans, id);
      if index == -1 {
        return None;
      }
      FirstMatchUnique(memberPlans, id, index);
      LookupReplaced(memberPlans, id, plan, id);
      var p := plan.(id := id);
      memberPlans := memberPlans[index := p];
      updated := Some(p);
    }

    /** Cuts out the first plan whose id is `id`; reports whether there was one. */
    method DeletePlan(id: int) returns (success: bool)
      modifies this`memberPlans
      ensures success <==> !Absent(old(memberPlans), id)
      ensures memberPlans == Remove(old(memberPlans), id)
      ensures nextPlanId == old(nextPlanId)
      ensures fitnessClasses == old(fitnessClasses) && nextClassId == old(nextClassId)
    {
      var index := FindIndex(memberPlans, id);
      if index == -1 {
        return false;
      }
      FirstMatchUnique(memberPlans, id, index);
      memberPlans := memberPlans[..index] + memberPlans[index + 1..];
      success := true;
    }
  }
}
