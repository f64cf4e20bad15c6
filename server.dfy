/**
 * main.go: the server's shared state (apiConfig), the middleware that counts
 * visits to the file server, and the admin metrics page.
 */
module Server {
  import opened Wrappers
  import opened Strings
  import Store
  import opened Http

  const Int32Min := -0x8000_0000
  const Int32Max := 0x7fff_ffff

  predicate IsInt32(x: int) {
    Int32Min <= x <= Int32Max
  }

  /** Two's-complement wrap-around of a 32-bit signed integer. */
  function WrapInt32(x: int): (r: int)
    ensures IsInt32(r)
    ensures IsInt32(x) ==> r == x
    ensures (r - x) % 0x1_0000_0000 == 0
  {
    (x - Int32Min) % 0x1_0000_0000 + Int32Min
  }

  /**
   * apiConfig. The database handle, the platform name and the secrets are
   * set once at start-up; the hit counter (an atomic.Int32) is the one
   * field that changes. The webhook's API key is read from the
   * configuration as `polkaApiKey`.
   */
  class ApiConfig {
    const db: Store.Database
    var fileserverHits: int
    const dev: string
    const secret: string
    const polkaApiKey: string

    /** The configuration main builds: a fresh counter at zero. */
    constructor (db: Store.Database, dev: string, secret: string, polkaApiKey: string)
      ensures this.db == db && this.dev == dev && this.secret == secret && this.polkaApiKey == polkaApiKey
      ensures fileserverHits == 0
    {
      this.db := db;
      this.dev := dev;
      this.secret := secret;
      this.polkaApiKey := polkaApiKey;
      fileserverHits := 0;
    }

    /**
     * middlewareMetricsInc, for one request under /app/: the counter goes
     * up by one (wrapping as an int32 does) before the file server answers.
     */
    method MiddlewareMetricsInc()
      modifies this`fileserverHits
      ensures fileserverHits == WrapInt32(old(fileserverHits) + 1)
    {
      fileserverHits := WrapInt32(fileserverHits + 1);
    }

    /** requestCountHandler: the admin page showing the current count, status 200. */
    method RequestCountHandler() returns (r: Response)
      ensures r.status == StatusOK && r.body == Html(MetricsPage(fileserverHits))
      ensures ReadCount(r.body.html) == Some(fileserverHits)
    {
      r := Response(StatusOK, Html(MetricsPage(fileserverHits)));
      MetricsPageReadsBack(fileserverHits);
    }
  }

  /** The counter after `n` visits to a freshly started server. */
  function Visits(n: nat): int {
    if n == 0 then 0 else WrapInt32(Visits(n - 1) + 1)
  }

  /** Each visit counts once, as long as the int32 does not overflow. */
  lemma {:induction false} VisitsCounted(n: nat)
    requires n <= Int32Max
    ensures Visits(n) == n
  {
    if n > 0 {
      VisitsCounted(n - 1);
    }
  }

  /** One visit more than the int32 holds wraps the counter to its minimum. */
  lemma VisitsWrapAround(n: nat)
    requires n == Int32Max + 1
    ensures Visits(n) == Int32Min
  {
    VisitsCounted(n - 1);
  }

  const MetricsHead := "<html>\n  <body>\n    <h1>Welcome, Chirpy Admin</h1>\n    <p>Chirpy has been visited "
  const MetricsTail := " times!</p>\n  </body>\n</html>"

  /** The HTML template with the count printed by %d: the fixed text around the numeral. */
  function MetricsPage(hits: int): (page: string)
    ensures |page| > |MetricsHead| + |MetricsTail|
    ensures page[..|MetricsHead|] == MetricsHead
    ensures page[|page| - |MetricsTail|..] == MetricsTail
  {
    var page := MetricsHead + IntToDecimal(hits) + MetricsTail;
    assert page[..|MetricsHead|] == MetricsHead;
    assert page[|page| - |MetricsTail|..] == MetricsTail;
    page
  }

  /** What an admin reads off the page: the number between the fixed text, if any. */
  function ReadCount(page: string): Option<int> {
    if |page| >= |MetricsHead| + |MetricsTail| && page[..|MetricsHead|] == MetricsHead
      && page[|page| - |MetricsTail|..] == MetricsTail
    then ParseDecimal(page[|MetricsHead|..|page| - |MetricsTail|])
    else None
  }

  /** The page shows exactly the count. */
  lemma MetricsPageReadsBack(hits: int)
    ensures ReadCount(MetricsPage(hits)) == Some(hits)
  {
    var digits := IntToDecimal(hits);
    var page := MetricsPage(hits);
    assert page[|MetricsHead|..|page| - |MetricsTail|] == digits;
    DecimalRoundTrip(hits);
  }
}
