/** routers/progress.py: read-only listing and lookup of weight-progress rows. Each row
    is returned as a `ProgressResponse`, which carries exactly the columns of a row
    other than its key, so a response element is the row's `Progress` data. Building
    that response validates it (schemas/responses.py:25-28) on the day the request is
    served, `today`; a row that fails is caught by `except Exception` and answered
    with a 500. */
module ProgressRouter {
  import opened Digits
  import opened Dates
  import opened Http
  import opened Tables
  import opened Entities

  const NoProgresses := "no progresses found"
  const UnexpectedError := "unexpected error!"

  function NoProgressWithId(progressId: int): string {
    "No progress found with id " + IntToString(progressId)
  }

  /** Whether a row passes `ProgressResponse` on the day `today`: `customer_id` and
      `weight` are `PositiveInt`, so a NULL customer fails, and `date` is a
      `PastDate`, strictly before today. */
  predicate IsProgressResponse(p: Progress, today: Date) {
    && p.customerId.Some? && p.customerId.value > 0
    && Before(p.date, today)
    && p.weight > 0
  }

  /** `get_progress`: one response per stored row, in storage order. An empty table is
      a 404, which the `except HTTPException` clause re-raises unchanged; a row that
      fails its response model makes the whole listing a 500. */
  function GetProgress(progress: seq<Row<Progress>>, today: Date): (r: Response<seq<Progress>>)
    ensures r.Ok? <==> progress != [] && forall i :: 0 <= i < |progress| ==> IsProgressResponse(progress[i].data, today)
    ensures r.Ok? ==> |r.value| == |progress| && forall i :: 0 <= i < |progress| ==> r.value[i] == progress[i].data
    ensures progress == [] ==> r == Fail(HttpError(404, NoProgresses))
    ensures progress != [] && r.Fail? ==> r.error == HttpError(500, UnexpectedError)
  {
    if progress == [] then Fail(HttpError(404, NoProgresses))
    else if forall i :: 0 <= i < |progress| ==> IsProgressResponse(progress[i].data, today) then Ok(Project(progress))
    else Fail(HttpError(500, UnexpectedError))
  }

  /** `get_progress_by_id`: the row with that key, the 404 re-raised unchanged when
      there is none, or the 500 when the row fails its response model. */
  function GetProgressById(progress: seq<Row<Progress>>, progressId: int, today: Date): (r: Response<Progress>)
    ensures r.Ok? ==> Row(progressId, r.value) in progress && IsProgressResponse(r.value, today)
    ensures r == Fail(HttpError(404, NoProgressWithId(progressId)))
            <==> forall i :: 0 <= i < |progress| ==> progress[i].id != progressId
    ensures r.Fail? ==> r.error == HttpError(404, NoProgressWithId(progressId)) || r.error == HttpError(500, UnexpectedError)
    ensures r == Fail(HttpError(500, UnexpectedError)) ==>
      exists i :: 0 <= i < |progress| && progress[i].id == progressId && !IsProgressResponse(progress[i].data, today)
  {
    match Lookup(progress, progressId)
    case Some(row) =>
      if IsProgressResponse(row.data, today) then Ok(row.data) else Fail(HttpError(500, UnexpectedError))
    case None => Fail(HttpError(404, NoProgressWithId(progressId)))
  }

  /** In a well-keyed table, fetching the key of any row returns exactly that row's
      data, or the 500 when that row fails its response model. */
  lemma GetProgressByIdFindsEachRow(progress: seq<Row<Progress>>, next: int, i: int, today: Date)
    requires WellKeyed(progress, next) && 0 <= i < |progress|
    ensures GetProgressById(progress, progress[i].id, today)
            == if IsProgressResponse(progress[i].data, today) then Ok(progress[i].data)
               else Fail(HttpError(500, UnexpectedError))
  {
    LookupFindsTheRow(progress, next, i);
  }

  /** A row saved under the next key on the day `saved` is refused with a 500 for the
      rest of that day (its date is not yet in the past), and returned on every later
      day when its customer and weight are positive. */
  lemma SavedProgressIsShownFromTheNextDay(progress: seq<Row<Progress>>, next: int, p: Progress, later: Date)
    requires WellKeyed(progress, next) && next >= 1
    requires p.customerId.Some? && p.customerId.value > 0 && p.weight > 0
    ensures GetProgressById(progress + [Row(next, p)], next, p.date) == Fail(HttpError(500, UnexpectedError))
    ensures Before(p.date, later) ==> GetProgressById(progress + [Row(next, p)], next, later) == Ok(p)
  {
    AppendKeepsKeys(progress, next, p);
  }

  /** A row whose customer was unlinked (`customer_id` NULL) is refused with a 500 on
      every day, by itself and in the listing. */
  lemma UnlinkedProgressIsRefused(progress: seq<Row<Progress>>, next: int, i: int, today: Date)
    requires WellKeyed(progress, next) && 0 <= i < |progress|
    requires progress[i].data.customerId.None?
    ensures GetProgressById(progress, progress[i].id, today) == Fail(HttpError(500, UnexpectedError))
    ensures GetProgress(progress, today) == Fail(HttpError(500, UnexpectedError))
  {
    GetProgressByIdFindsEachRow(progress, next, i, today);
  }
}
