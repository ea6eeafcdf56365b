/** The few net/http constants the server and the load generator share. */
module Http {
  const StatusOK: int := 200
  const StatusMethodNotAllowed: int := 405
  const StatusTooManyRequests: int := 429

  const MethodGet: string := "GET"
}
