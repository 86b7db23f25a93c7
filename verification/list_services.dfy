/**
 * src/services/personnel.js: `getPersonnel` accepts a bare array or an object wrapping one
 * under `staff_members`, and answers `[]` to anything else, a failed call included.
 */
module PersonnelService {
  import opened JsValues
  import opened Visitors
  import opened Api

  function GetPersonnel(r: Result<ListBody<StaffMember>>): (staff: seq<StaffMember>)
    ensures r.Err? ==> staff == []
    ensures r.Ok? && r.value.ArrayBody? ==> staff == r.value.items
    ensures r.Ok? && r.value.ObjectBody? ==>
      staff == if "staff_members" in r.value.arrayFields then r.value.arrayFields["staff_members"] else []
    ensures r.Ok? && r.value.OtherBody? ==> staff == []
  {
    match r
    case Err(_) => []
    case Ok(ArrayBody(items)) => items
    case Ok(ObjectBody(fields)) => if "staff_members" in fields then fields["staff_members"] else []
    case Ok(OtherBody) => []
  }
}

/**
 * src/services/formations.js: `getFormationsDuJour`, the same three-way test on `trainings`.
 */
module FormationsService {
  import opened JsValues
  import opened Visitors
  import opened Api

  function GetFormationsDuJour(r: Result<ListBody<Training>>): (trainings: seq<Training>)
    ensures r.Err? ==> trainings == []
    ensures r.Ok? && r.value.ArrayBody? ==> trainings == r.value.items
    ensures r.Ok? && r.value.ObjectBody? ==>
      trainings == if "trainings" in r.value.arrayFields then r.value.arrayFields["trainings"] else []
    ensures r.Ok? && r.value.OtherBody? ==> trainings == []
  {
    match r
    case Err(_) => []
    case Ok(ArrayBody(items)) => items
    case Ok(ObjectBody(fields)) => if "trainings" in fields then fields["trainings"] else []
    case Ok(OtherBody) => []
  }
}
