/** What an HTTP GET returned: its status code and its already-decoded JSON body. */
module Http {

  /** The support site every troubleshooter and knowledge-base URL starts with. */
  const SupportSite: string := "https://ru.wargaming.net/support"

  datatype Response<T> = Response(status: int, body: T)

  /** Python's `resp.status == 200`. */
  predicate IsOk<T>(resp: Response<T>) {
    resp.status == 200
  }
}
