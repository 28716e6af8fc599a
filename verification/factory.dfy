/**
 * The crawler factory: the page range, worker count and base address it works
 * out from keyword arguments and the configuration, and the crawler it builds
 * for each supported site; plus the Truyentranh3q crawler's own set-up rules.
 *
 * A crawler's construction is modelled by the set of keyword names the call
 * passes: Python refuses a call that passes a keyword the constructor does not
 * declare, so the model checks the names against each constructor's parameters.
 */
module Factory {
  import opened Base

  datatype Site = TruyenQQ | NetTruyen | Manhuavn | Truyentranh3q

  /** The configuration entries the factory reads; `None` for an absent entry. */
  datatype Config = Config(
    startPage: Option<int>,
    maxPages: Option<int>,
    workerCount: Option<int>,
    websites: map<string, string>)

  /** The factory's optional keyword arguments; `None` for one not passed (or `end_page=None`). */
  datatype Kwargs = Kwargs(
    startPage: Option<int>,
    endPage: Option<int>,
    maxPages: Option<int>,
    workerCount: Option<int>,
    baseUrl: Option<string>)

  /** The pages to crawl and the number of workers. */
  datatype Plan = Plan(start: int, end: int, maxPages: int, workers: int)

  /**
   * Page range and workers. Keyword arguments win over configuration entries,
   * which win over the defaults 1, 10 and 5; a missing end page is
   * `start + max_pages − 1`, an end before the start is moved to the start, and
   * the page count is recomputed from the range.
   */
  function PagePlan(cfg: Config, kw: Kwargs): (p: Plan)
    ensures p.start == kw.startPage.GetOr(cfg.startPage.GetOr(1))
    ensures p.workers == kw.workerCount.GetOr(cfg.workerCount.GetOr(5))
    ensures p.start <= p.end && p.maxPages == p.end - p.start + 1 >= 1
    ensures kw.endPage.Some? && kw.endPage.value >= p.start ==> p.end == kw.endPage.value
    ensures (kw.endPage.None? && kw.maxPages.GetOr(cfg.maxPages.GetOr(10)) >= 1 ==>
             p.maxPages == kw.maxPages.GetOr(cfg.maxPages.GetOr(10)))
    ensures (((kw.endPage.Some? && kw.endPage.value < p.start) ||
              (kw.endPage.None? && kw.maxPages.GetOr(cfg.maxPages.GetOr(10)) < 1)) ==>
             p.end == p.start)
  {
    var start := kw.startPage.GetOr(cfg.startPage.GetOr(1));
    var maxPages := kw.maxPages.GetOr(cfg.maxPages.GetOr(10));
    var end := match kw.endPage
      case Some(e) => e
      case None => start + maxPages - 1;
    var end := if end < start then start else end;
    Plan(start, end, end - start + 1, kw.workerCount.GetOr(cfg.workerCount.GetOr(5)))
  }

  /** With neither arguments nor configuration: pages 1 to 10 with 5 workers. */
  lemma DefaultPlan(websites: map<string, string>)
    ensures PagePlan(Config(None, None, None, websites), Kwargs(None, None, None, None, None)) == Plan(1, 10, 10, 5)
  {
  }

  /** Passing a plan's own values back as arguments yields the same plan. */
  lemma PlanIsStable(cfg: Config, kw: Kwargs, cfg2: Config)
    ensures var p := PagePlan(cfg, kw);
            PagePlan(cfg2, Kwargs(Some(p.start), Some(p.end), Some(p.maxPages), Some(p.workers), kw.baseUrl)) == p
  {
  }

  const KnownUrls: map<Site, string> := map[
    TruyenQQ := "https://truyenqqgo.com",
    NetTruyen := "https://nettruyenvia.com",
    Manhuavn := "https://manhuavn.top",
    Truyentranh3q := "https://truyentranh3q.com"]

  function SiteName(s: Site): string {
    match s
    case TruyenQQ => "TruyenQQ"
    case NetTruyen => "NetTruyen"
    case Manhuavn => "Manhuavn"
    case Truyentranh3q => "Truyentranh3q"
  }

  /** The site a type name selects, if supported; the names are case-sensitive. */
  function SiteOf(name: string): (r: Option<Site>)
    ensures r.Some? ==> SiteName(r.value) == name
    ensures forall s: Site :: SiteName(s) == name ==> r == Some(s)
  {
    if name == "TruyenQQ" then Some(TruyenQQ)
    else if name == "NetTruyen" then Some(NetTruyen)
    else if name == "Manhuavn" then Some(Manhuavn)
    else if name == "Truyentranh3q" then Some(Truyentranh3q)
    else None
  }

  /** The base address: the argument, else the configured site address, else the built-in one. */
  function BaseUrl(site: Site, cfg: Config, kw: Kwargs): (url: string)
    ensures kw.baseUrl.Some? ==> url == kw.baseUrl.value
    ensures kw.baseUrl.None? && SiteName(site) in cfg.websites ==> url == cfg.websites[SiteName(site)]
    ensures kw.baseUrl.None? && SiteName(site) !in cfg.websites ==> url == KnownUrls[site]
  {
    kw.baseUrl.GetOr(if SiteName(site) in cfg.websites then cfg.websites[SiteName(site)] else KnownUrls[site])
  }

  /** The keyword names every constructor call receives. */
  const CallKeys: set<string> :=
    {"db_manager", "config_manager", "start_page", "end_page", "max_pages", "worker_count", "base_url"}

  /** The keyword parameters each crawler's constructor declares. */
  function Accepts(site: Site): set<string> {
    match site
    case TruyenQQ => {"db_manager", "base_url", "max_pages", "worker_count"}
    case NetTruyen => {"db_manager", "config_manager", "base_url", "max_pages", "worker_count"}
    case Manhuavn => {"db_manager", "config_manager", "base_url", "max_pages", "worker_count"}
    case Truyentranh3q => CallKeys
  }

  /** A constructor call: the site, the keyword names passed, the plan and the address. */
  datatype Call = Call(site: Site, keys: set<string>, plan: Plan, baseUrl: string)

  datatype FactoryError =
    | NoConfig                                       // ValueError: no configuration manager
    | Unsupported(name: string)                      // ValueError: unknown crawler type
    | UnexpectedKeywords(site: Site, keys: set<string>)  // TypeError from the constructor

  /** The configuration in use: the argument if given, else the one the factory was initialised with. */
  function ConfigInUse(arg: Option<Config>, initialised: Option<Config>): Option<Config> {
    if arg.Some? then arg else initialised
  }

  /**
   * `create_crawler` as written: every crawler receives the same keywords, so a
   * constructor that does not declare one of them raises.
   */
  function CreateCrawler(name: string, arg: Option<Config>, initialised: Option<Config>, kw: Kwargs)
    : (r: Result<Call, FactoryError>)
    ensures ConfigInUse(arg, initialised).None? <==> r == Err(NoConfig)
    ensures ConfigInUse(arg, initialised).Some? && SiteOf(name).None? <==> r == Err(Unsupported(name))
    ensures r.Ok? ==> r.value.site == SiteOf(name).value && r.value.keys <= Accepts(r.value.site)
    ensures (r.Err? && r.error.UnexpectedKeywords? ==>
             r.error.keys == CallKeys - Accepts(r.error.site) != {})
  {
    match ConfigInUse(arg, initialised)
    case None => Err(NoConfig)
    case Some(cfg) =>
      var plan := PagePlan(cfg, kw);
      match SiteOf(name)
      case None => Err(Unsupported(name))
      case Some(site) =>
        if CallKeys <= Accepts(site) then Ok(Call(site, CallKeys, plan, BaseUrl(site, cfg, kw)))
        else Err(UnexpectedKeywords(site, CallKeys - Accepts(site)))
  }

  /** As written, only the Truyentranh3q crawler can be built; the other three refuse `start_page`. */
  lemma CreateCrawlerRefusesThreeSites(name: string, cfg: Config, kw: Kwargs)
    requires SiteOf(name).Some?
    ensures CreateCrawler(name, Some(cfg), None, kw).Ok? <==> SiteOf(name) == Some(Truyentranh3q)
    ensures (SiteOf(name) != Some(Truyentranh3q) ==>
             var r := CreateCrawler(name, Some(cfg), None, kw);
             r.Err? && r.error.UnexpectedKeywords? && "start_page" in r.error.keys && "end_page" in r.error.keys)
  {
  }

  /** The corrected factory: each constructor receives only the keywords it declares. */
  function CreateCrawlerFixed(name: string, arg: Option<Config>, initialised: Option<Config>, kw: Kwargs)
    : (r: Result<Call, FactoryError>)
    ensures ConfigInUse(arg, initialised).None? <==> r == Err(NoConfig)
    ensures ConfigInUse(arg, initialised).Some? && SiteOf(name).None? <==> r == Err(Unsupported(name))
    ensures r.Ok? ==> r.value.keys <= Accepts(r.value.site)
  {
    match ConfigInUse(arg, initialised)
    case None => Err(NoConfig)
    case Some(cfg) =>
      match SiteOf(name)
      case None => Err(Unsupported(name))
      case Some(site) => Ok(Call(site, CallKeys * Accepts(site), PagePlan(cfg, kw), BaseUrl(site, cfg, kw)))
  }

  /**
   * The corrected factory builds a crawler for every supported site whenever a
   * configuration is available, with the plan and address the original computes,
   * and for Truyentranh3q it makes exactly the original call.
   */
  lemma FixedBuildsEverySite(name: string, arg: Option<Config>, initialised: Option<Config>, kw: Kwargs)
    requires ConfigInUse(arg, initialised).Some? && SiteOf(name).Some?
    ensures var r := CreateCrawlerFixed(name, arg, initialised, kw);
            var cfg := ConfigInUse(arg, initialised).value;
            r.Ok? && r.value.site == SiteOf(name).value &&
            r.value.plan == PagePlan(cfg, kw) && r.value.baseUrl == BaseUrl(r.value.site, cfg, kw) &&
            "base_url" in r.value.keys && "max_pages" in r.value.keys && "worker_count" in r.value.keys
    ensures SiteOf(name) == Some(Truyentranh3q) ==>
            CreateCrawlerFixed(name, arg, initialised, kw) == CreateCrawler(name, arg, initialised, kw)
  {
    assert CallKeys * Accepts(Truyentranh3q) == CallKeys;
  }

  // ---------------------------------------------------------------------------
  // Truyentranh3qCrawler.__init__

  const MaxDriverInstances: int := 25

  datatype Crawler3q = Crawler3q(baseUrl: string, start: int, end: Option<int>, maxPages: Option<int>, workers: int)

  /** Python truthiness of an optional page count: `None` and 0 are false. */
  predicate Given(n: Option<int>) { n.Some? && n.value != 0 }

  /**
   * The constructor: an empty address becomes the built-in one, a missing end
   * page is derived from a given page count, and the worker count is clamped
   * to between 1 and 25.
   */
  function Truyentranh3qInit(baseUrl: Option<string>, maxPages: Option<int>, workers: int, start: int, end: Option<int>)
    : (c: Crawler3q)
    ensures 1 <= c.workers <= MaxDriverInstances
    ensures 1 <= workers <= MaxDriverInstances ==> c.workers == workers
    ensures baseUrl.Some? && baseUrl.value != "" ==> c.baseUrl == baseUrl.value
    ensures c.start == start && c.maxPages == maxPages
    ensures end.Some? ==> c.end == end
    ensures end.None? && Given(maxPages) ==> c.end == Some(start + maxPages.value - 1)
    ensures end.None? && !Given(maxPages) ==> c.end.None?
  {
    var url := if baseUrl.Some? && baseUrl.value != "" then baseUrl.value else "https://Truyentranh3q.com";
    var end := if end.None? && Given(maxPages) then Some(start + maxPages.value - 1) else end;
    Crawler3q(url, start, end, maxPages, MinInt(MaxInt(1, workers), MaxDriverInstances))
  }

  /** A Truyentranh3q crawler built by the factory crawls exactly the planned pages, with 1 to 25 workers. */
  lemma FactoryTruyentranh3q(cfg: Config, kw: Kwargs)
    ensures var p := PagePlan(cfg, kw);
            var c := Truyentranh3qInit(Some(BaseUrl(Truyentranh3q, cfg, kw)), Some(p.maxPages), p.workers, p.start, Some(p.end));
            c.start == p.start && c.end == Some(p.end) && c.end.value - c.start + 1 == p.maxPages &&
            1 <= c.workers <= MaxDriverInstances
  {
  }
}
