/** The uniform JSON envelope every endpoint answers with (`ApiResponse`). The wall-clock
    timestamp is an input: `now` stands for `new Date().toISOString()`. */
module ApiResponse {
  import opened Common

  datatype Pagination = Pagination(page: int, limit: int, total: int, pages: Option<int>)

  /** `data` is `None` when the field is absent (error envelopes); `pagination` only
      appears on paginated envelopes. */
  datatype Envelope<T> = Envelope(
    success: bool,
    statusCode: int,
    message: string,
    data: Option<T>,
    pagination: Option<Pagination>,
    timestamp: int)

  /** What an Express handler sends: the HTTP status line and the JSON body. */
  datatype Reply<T> = Reply(status: int, body: Envelope<T>)

  /** `ApiResponse.success(data, message = 'Success', statusCode = 200)`: an omitted
      argument (`None`) takes its default. */
  function Success<T>(data: T, message: Option<string>, statusCode: Option<int>, now: int): (r: Envelope<T>)
    ensures r.success && r.data == Some(data) && r.pagination == None
    ensures statusCode == None ==> r.statusCode == 200
    ensures message == None ==> r.message == "Success"
    ensures statusCode.Some? ==> r.statusCode == statusCode.value
    ensures message.Some? ==> r.message == message.value
    ensures r.timestamp == now
  {
    Envelope(true, statusCode.GetOr(200), message.GetOr("Success"), Some(data), None, now)
  }

  /** `ApiResponse.error(message = 'Error', statusCode = 500)`: no `data` field. */
  function Error<T>(message: Option<string>, statusCode: Option<int>, now: int): (r: Envelope<T>)
    ensures !r.success && r.data == None && r.pagination == None
    ensures statusCode == None ==> r.statusCode == 500
    ensures message == None ==> r.message == "Error"
    ensures statusCode.Some? ==> r.statusCode == statusCode.value
    ensures message.Some? ==> r.message == message.value
    ensures r.timestamp == now
  {
    Envelope(false, statusCode.GetOr(500), message.GetOr("Error"), None, None, now)
  }

  /** `ApiResponse.paginated(data, pagination, message = 'Success')`: always 200. */
  function Paginated<T>(data: T, pagination: Pagination, message: Option<string>, now: int): (r: Envelope<T>)
    ensures r.success && r.statusCode == 200
    ensures r.data == Some(data) && r.pagination == Some(pagination)
    ensures message == None ==> r.message == "Success"
    ensures message.Some? ==> r.message == message.value
    ensures r.timestamp == now
  {
    Envelope(true, 200, message.GetOr("Success"), Some(data), Some(pagination), now)
  }

  /** A paginated envelope is the default success envelope with the pagination added. */
  lemma PaginatedExtendsSuccess<T>(data: T, p: Pagination, message: Option<string>, now: int)
    ensures Paginated(data, p, message, now) == Success(data, message, None, now).(pagination := Some(p))
  {
  }

  /** The `success` flag tells the three kinds of envelope apart: no error envelope is
      ever equal to a success or paginated one, whatever the arguments. */
  lemma ErrorNeverSuccess<T>(data: T, p: Pagination, m1: Option<string>, s1: Option<int>,
                             m2: Option<string>, s2: Option<int>, now: int)
    ensures Error<T>(m2, s2, now) != Success(data, m1, s1, now)
    ensures Error<T>(m2, s2, now) != Paginated(data, p, m1, now)
  {
  }
}
