/** routers/gyms.py: listing, creating, fetching and deleting gyms, and listing a
    gym's customers. */
module GymsRouter {
  import opened Wrappers
  import opened Digits
  import opened Http
  import opened Tables
  import opened Entities
  import opened Database

  /** The two shapes `get_gyms` answers with: `{"gyms": [...]}` when no place is
      given, a bare list when one is. Each element is a `GymResponse`, which keeps
      the name and the place. */
  datatype GymListing =
    | AllGyms(gyms: seq<Gym>)
    | GymsInPlace(matches: seq<Gym>)

  const SearchErrorPrefix := "an error occurred during search"
  const NoGymsRegistered := "there are no Gyms registered in database"

  function NoGymsIn(place: string): string {
    "No gyms found in " + place
  }

  function GymNotFound(gymId: int): string {
    "Gym with id " + IntToString(gymId) + " not found"
  }

  function NoCustomersAt(gymId: int): string {
    "Gym with id " + IntToString(gymId) + " has no customers"
  }

  function GymDeleted(gymId: int): string {
    "Gym with id " + IntToString(gymId) + " successfully deleted"
  }

  function InPlace(place: string): Row<Gym> -> bool {
    (g: Row<Gym>) => g.data.addressPlace == place
  }

  function AtGym(gymId: int): Row<Customer> -> bool {
    (c: Row<Customer>) => c.data.gymId == Some(gymId)
  }

  /** `get_gyms(address_place)`. The 404s raised for an empty result are caught by
      the broad `except` and re-raised as 400 with the search prefix. */
  function GetGyms(gyms: seq<Row<Gym>>, addressPlace: Option<string>): (r: Response<GymListing>)
    ensures addressPlace.None? ==> (r.Ok? <==> gyms != [])
    ensures addressPlace.None? && r.Ok? ==> r.value == AllGyms(Project(gyms))
    ensures addressPlace.None? && r.Fail? ==>
      r.error == HttpError(400, SearchErrorPrefix + ("404: " + NoGymsRegistered))
    ensures addressPlace.Some? ==>
      (r.Ok? <==> exists i :: 0 <= i < |gyms| && gyms[i].data.addressPlace == addressPlace.value)
    ensures addressPlace.Some? && r.Ok? ==>
      && r.value == GymsInPlace(Project(Filter(gyms, InPlace(addressPlace.value))))
      && forall k :: 0 <= k < |r.value.matches| ==> r.value.matches[k].addressPlace == addressPlace.value
    ensures addressPlace.Some? && r.Fail? ==>
      r.error == HttpError(400, SearchErrorPrefix + ("404: " + (NoGymsIn(addressPlace.value))))
  {
    match addressPlace
    case None =>
      if gyms != [] then Ok(AllGyms(Project(gyms)))
      else
        DescribeStatus(HttpError(404, NoGymsRegistered));
        Fail(Rewrap(HttpError(404, NoGymsRegistered), 400, SearchErrorPrefix))
    case Some(place) =>
      var found := Filter(gyms, InPlace(place));
      if found == [] then
        DescribeStatus(HttpError(404, NoGymsIn(place)));
        Fail(Rewrap(HttpError(404, NoGymsIn(place)), 400, SearchErrorPrefix))
      else
        assert found[0] in gyms && found[0].data.addressPlace == place;
        assert forall k :: 0 <= k < |found| ==> found[k].data.addressPlace == place;
        Ok(GymsInPlace(Project(found)))
  }

  /** The GET handler `get_gym_by_id`: the 404 is not caught (only database errors are). */
  function GetGymById(gyms: seq<Row<Gym>>, gymId: int): (r: Response<Row<Gym>>)
    ensures r.Ok? <==> exists i :: 0 <= i < |gyms| && gyms[i].id == gymId
    ensures r.Ok? ==> r.value in gyms && r.value.id == gymId
    ensures r.Fail? ==> r.error == HttpError(404, GymNotFound(gymId))
  {
    match Lookup(gyms, gymId)
    case Some(g) => Ok(g)
    case None => Fail(HttpError(404, GymNotFound(gymId)))
  }

  /** `get_customers_by_gym_id`: every customer whose `gym_id` is the given id, in
      storage order; none is a 404, which stays a 404. */
  function GetCustomersByGymId(customers: seq<Row<Customer>>, gymId: int): (r: Response<seq<Row<Customer>>>)
    ensures r.Ok? <==> exists i :: 0 <= i < |customers| && customers[i].data.gymId == Some(gymId)
    ensures r.Ok? ==> r.value == Filter(customers, AtGym(gymId))
    ensures r.Ok? ==> forall k :: 0 <= k < |r.value| ==> r.value[k] in customers && r.value[k].data.gymId == Some(gymId)
    ensures r.Fail? ==> r.error == HttpError(404, NoCustomersAt(gymId))
  {
    var found := Filter(customers, AtGym(gymId));
    if found == [] then Fail(HttpError(404, NoCustomersAt(gymId)))
    else
      assert found[0] in customers && found[0].data.gymId == Some(gymId);
      Ok(found)
  }

  /** `create_gym`: one new row with the next key; there is no duplicate check. */
  method CreateGym(db: Db, gym: Gym) returns (created: Row<Gym>)
    requires db.Valid()
    modifies db
    ensures db.Valid()
    ensures created == Row(old(db.nextGymId), gym)
    ensures db.gyms == old(db.gyms) + [created] && db.nextGymId == old(db.nextGymId) + 1
    ensures db.customers == old(db.customers) && db.progress == old(db.progress) && db.goals == old(db.goals)
    ensures db.nextCustomerId == old(db.nextCustomerId) && db.nextProgressId == old(db.nextProgressId)
    ensures db.nextGoalId == old(db.nextGoalId)
    ensures GetGymById(db.gyms, created.id) == Ok(created)
  {
    created := Row(db.nextGymId, gym);
    AppendKeepsKeys(db.gyms, db.nextGymId, gym);
    db.gyms := db.gyms + [created];
    db.nextGymId := db.nextGymId + 1;
  }

  /** The DELETE handler (also named `get_gym_by_id` in the source). The gym's
      customers stay, with their `gym_id` set to NULL. */
  method DeleteGym(db: Db, gymId: int) returns (r: Response<Reply>)
    requires db.Valid()
    modifies db
    ensures db.Valid()
    ensures r.Fail? <==> forall i :: 0 <= i < |old(db.gyms)| ==> old(db.gyms)[i].id != gymId
    ensures r.Fail? ==> r.error == HttpError(404, GymNotFound(gymId)) && unchanged(db)
    ensures r.Ok? ==> r.value == Reply(200, GymDeleted(gymId))
    ensures r.Ok? ==> RemovedOnce(old(db.gyms), db.gyms, gymId)
    ensures r.Ok? ==> db.customers == Unlink(old(db.customers), MemberOf(gymId), LeaveGym)
    ensures r.Ok? ==> db.progress == old(db.progress) && db.goals == old(db.goals)
    ensures r.Ok? ==> db.nextGymId == old(db.nextGymId) && db.nextCustomerId == old(db.nextCustomerId)
    ensures r.Ok? ==> db.nextProgressId == old(db.nextProgressId) && db.nextGoalId == old(db.nextGoalId)
    ensures r.Ok? ==> GetGymById(db.gyms, gymId).Fail? && GetCustomersByGymId(db.customers, gymId).Fail?
  {
    match IndexOf(db.gyms, gymId)
    case None =>
      r := Fail(HttpError(404, GymNotFound(gymId)));
    case Some(k) =>
      RemoveKeepsKeys(db.gyms, db.nextGymId, k);
      RemoveAtRemovesOnce(db.gyms, k);
      var detached := Unlink(db.customers, MemberOf(gymId), LeaveGym);
      UnlinkLeavesNoReference(db.customers, db.nextCustomerId, MemberOf(gymId), LeaveGym);
      db.gyms := RemoveAt(db.gyms, k);
      db.customers := detached;
      r := Ok(Reply(200, GymDeleted(gymId)));
  }
}
