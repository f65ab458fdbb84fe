/**
 The GitHub runner scaler's cache of workflow runs: the ETag map that every request
 shares, and the decoded runs per repository and status that a 304 answer falls back on.
 */
module WorkflowRunCache {
  import opened Common

  datatype WorkflowRun = WorkflowRun(id: int, status: string)

  type Runs = seq<WorkflowRun>

  /** What the server has at the time of a request; an empty `etag` means no ETag header. */
  datatype Current = Down | Refuses(code: int) | Serves(etag: string, body: string)

  datatype Response = NoResponse | Response(code: int, body: string, etag: string)

  /** A conditional GET as in sections 13.1.2 and 15.4.5 of RFC 9110. */
  function Respond(c: Current, ifNoneMatch: Option<string>): Response {
    match c
    case Down => NoResponse
    case Refuses(code) => Response(code, "", "")
    case Serves(etag, body) =>
      if etag != "" && ifNoneMatch == Some(etag) then Response(304, "", etag) else Response(200, body, etag)
  }

  datatype Cache = Cache(etags: map<string, string>, previous: map<string, map<string, Runs>>)

  /** What a caller of `getWorkflowRuns` sees; `Absent` is the answer for a 404. */
  datatype Answer = Absent | RequestFailed(code: int) | Undecodable | PreviousNotSet | Found(runs: Runs)

  /** Where the API lives. */
  datatype Site = Site(api: string, owner: string)

  predicate KnownStatus(status: string) {
    status == "queued" || status == "in_progress"
  }

  function RunsUrl(site: Site, repo: string, status: string): string {
    site.api + "/repos/" + site.owner + "/" + repo + "/actions/runs?status=" + status + "&per_page=100"
  }

  /** `workflow` is the run's decimal id. */
  function JobsUrl(site: Site, repo: string, workflow: string): string {
    site.api + "/repos/" + site.owner + "/" + repo + "/actions/runs/" + workflow + "/jobs?per_page=100"
  }

  function ReposUrl(site: Site, scope: string, page: string): string {
    site.api + scope + site.owner + "/repos?page=" + page
  }

  // ---- Urls ----------------------------------------------------------------

  lemma CancelSuffix(a: string, b: string, s: string, t: string)
    requires a + s == b + t && |s| == |t|
    ensures a == b && s == t
  {
    assert |a| == |b|;
    assert (a + s)[..|a|] == a && (b + t)[..|b|] == b;
    assert (a + s)[|a|..] == s && (b + t)[|b|..] == t;
  }

  lemma CancelPrefix(a: string, s: string, t: string)
    requires a + s == a + t
    ensures s == t
  {
    assert (a + s)[|a|..] == s && (a + t)[|a|..] == t;
  }

  lemma LastDiffers(a: string, b: string, s: string, t: string)
    requires s != "" && t != "" && s[|s| - 1] != t[|t| - 1]
    ensures a + s != b + t
  {
    assert (a + s)[|a + s| - 1] == s[|s| - 1];
    assert (b + t)[|b + t| - 1] == t[|t| - 1];
  }

  /** Different repositories or statuses have different urls. */
  lemma RunsUrlInjective(site: Site, repo: string, status: string, repo': string, status': string)
    requires KnownStatus(status) && KnownStatus(status') && RunsUrl(site, repo, status) == RunsUrl(site, repo', status')
    ensures repo == repo' && status == status'
  {
    var head := site.api + "/repos/" + site.owner + "/";
    var middle := "/actions/runs?status=";
    CancelSuffix(head + repo + middle + status, head + repo' + middle + status', "&per_page=100", "&per_page=100");
    if status != status' {
      LastDiffers(head + repo + middle, head + repo' + middle, status, status');
    } else {
      CancelSuffix(head + repo + middle, head + repo' + middle, status, status');
      CancelSuffix(head + repo, head + repo', middle, middle);
      CancelPrefix(head, repo, repo');
    }
  }

  lemma JobsUrlApart(site: Site, repo: string, status: string, repo': string, workflow: string)
    ensures RunsUrl(site, repo, status) != JobsUrl(site, repo', workflow)
  {
    var a := site.api + "/repos/" + site.owner + "/" + repo + "/actions/runs?status=" + status;
    var b := site.api + "/repos/" + site.owner + "/" + repo' + "/actions/runs/" + workflow + "/job";
    assert b + "s?per_page=100" == JobsUrl(site, repo', workflow) by {
      assert "/job" + "s?per_page=100" == "/jobs?per_page=100";
    }
    assert (b + "s") + "?per_page=100" == b + "s?per_page=100";
    if a + "&per_page=100" == (b + "s") + "?per_page=100" {
      CancelSuffix(a, b + "s", "&per_page=100", "?per_page=100");
    }
  }

  lemma ReposUrlApart(site: Site, repo: string, status: string, scope: string, page: string)
    requires scope == "/orgs/" || scope == "/users/"
    ensures RunsUrl(site, repo, status) != ReposUrl(site, scope, page)
  {
    var i := |site.api| + 1;
    assert RunsUrl(site, repo, status)[i] == 'r';
    assert ReposUrl(site, scope, page)[i] == scope[1];
  }

  // ---- Requests ------------------------------------------------------------

  /** The response of `getGithubRequest` and the ETag map after it. */
  function Requested(etags: map<string, string>, enabled: bool, url: string,
                     c: Current): (Response, map<string, string>) {
    var r := Respond(c, if enabled && url in etags then Some(etags[url]) else None);
    (r, if enabled && r.Response? && r.code == 200 && r.etag != "" then etags[url := r.etag] else etags)
  }

  function PreviousOf(previous: map<string, map<string, Runs>>, repo: string, status: string): Option<Runs> {
    if repo in previous && status in previous[repo] then Some(previous[repo][status]) else None
  }

  function Store(previous: map<string, map<string, Runs>>, repo: string, status: string,
                 runs: Runs): map<string, map<string, Runs>> {
    if repo in previous then previous[repo := previous[repo][status := runs]] else previous[repo := map[status := runs]]
  }

  type Decoder = string -> Option<Runs>

  /** `getWorkflowRuns`: what it answers and the cache after it. */
  function Fetched(cache: Cache, enabled: bool, decode: Decoder, site: Site, repo: string, status: string,
                   c: Current): (Answer, Cache) {
    var (r, etags) := Requested(cache.etags, enabled, RunsUrl(site, repo, status), c);
    var after := cache.(etags := etags);
    if r.NoResponse? then (RequestFailed(-1), after)
    else if r.code == 304 && enabled then
      var p := PreviousOf(cache.previous, repo, status);
      (if p.Some? then Found(p.value) else PreviousNotSet, after)
    else if r.code == 404 then (Absent, after)
    else if r.code != 200 then (RequestFailed(r.code), after)
    else
      var runs := decode(r.body);
      if runs.None? then (Undecodable, after)
      else (Found(runs.value),
            if enabled then after.(previous := Store(cache.previous, repo, status, runs.value)) else after)
  }

  /** What `getWorkflowRuns` answers with ETags off, from what the server has: 404 is an absent repository, every other
      refusal an error, and a page is decoded. */
  lemma UncachedAnswer(cache: Cache, decode: Decoder, site: Site, repo: string, status: string, c: Current)
    ensures var (a, after) := Fetched(cache, false, decode, site, repo, status, c);
            && after == cache
            && (c == Down ==> a == RequestFailed(-1))
            && (c == Refuses(404) ==> a == Absent)
            && (c.Refuses? && c.code != 200 && c.code != 404 ==> a == RequestFailed(c.code))
            && (c.Serves? && decode(c.body).Some? ==> a == Found(decode(c.body).value))
            && (c.Serves? && decode(c.body).None? ==> a == Undecodable)
  {
  }

  /** The parts of a url are in the order the API expects: owner, repository, status. */
  lemma RunsUrlParts(site: Site, repo: string, status: string)
    ensures var head, tail := site.api + "/repos/" + site.owner + "/", "&per_page=100";
            var url := RunsUrl(site, repo, status);
            && |url| == |head| + |repo| + |"/actions/runs?status="| + |status| + |tail|
            && head <= url && url[|head|..|head| + |repo|] == repo
            && url[|url| - |tail| - |status|..|url| - |tail|] == status
  {
    var head, middle, tail := site.api + "/repos/" + site.owner + "/", "/actions/runs?status=", "&per_page=100";
    var url := RunsUrl(site, repo, status);
    assert url == head + (repo + (middle + (status + tail)));
    assert url == (head + repo + middle) + (status + tail);
  }

  /** A request for workflow runs, or any other request of the scaler, which shares the ETag map only. */
  datatype Request = Workflow(repo: string, status: string, current: Current) | Other(url: string, current: Current)

  function After(cache: Cache, decode: Decoder, site: Site, q: Request): Cache {
    match q
    case Workflow(repo, status, c) => Fetched(cache, true, decode, site, repo, status, c).1
    case Other(url, c) => cache.(etags := Requested(cache.etags, true, url, c).1)
  }

  function AfterAll(cache: Cache, decode: Decoder, site: Site, qs: seq<Request>): Cache {
    if qs == [] then cache else After(AfterAll(cache, decode, site, qs[..|qs| - 1]), decode, site, qs[|qs| - 1])
  }

  const EMPTY := Cache(map[], map[])

  // ---- What the server promises --------------------------------------------

  /** `content(url, etag)` is the one body that this ETag identifies at this url. */
  type Content = (string, string) -> string

  /** Every 200 decodes and carries an ETag that identifies its representation; 304 is not given out of turn. */
  ghost predicate Promised(content: Content, decode: Decoder, url: string, c: Current) {
    && (c.Serves? ==> c.etag != "" && c.body == content(url, c.etag) && decode(c.body).Some?)
    && (c.Refuses? ==> c.code != 200 && c.code != 304)
  }

  /** The scaler's other urls are none of the workflow-run urls (`JobsUrlApart`, `ReposUrlApart`). */
  ghost predicate Fits(content: Content, decode: Decoder, site: Site, q: Request) {
    match q
    case Workflow(repo, status, c) => KnownStatus(status) && Promised(content, decode, RunsUrl(site, repo, status), c)
    case Other(url, _) => forall repo, status :: KnownStatus(status) ==> url != RunsUrl(site, repo, status)
  }

  /** The jobs and repository requests are such other requests, whatever the server answers. */
  lemma OwnRequestsFit(content: Content, decode: Decoder, site: Site, repo: string, workflow: string, scope: string,
                       page: string, c: Current)
    requires scope == "/orgs/" || scope == "/users/"
    ensures Fits(content, decode, site, Other(JobsUrl(site, repo, workflow), c))
    ensures Fits(content, decode, site, Other(ReposUrl(site, scope, page), c))
  {
    forall repo', status ensures RunsUrl(site, repo', status) != JobsUrl(site, repo, workflow) {
      JobsUrlApart(site, repo', status, repo, workflow);
    }
    forall repo', status ensures RunsUrl(site, repo', status) != ReposUrl(site, scope, page) {
      ReposUrlApart(site, repo', status, scope, page);
    }
  }

  /** A remembered ETag comes with the runs it identifies. */
  ghost predicate PairedAt(content: Content, decode: Decoder, site: Site, cache: Cache, repo: string, status: string) {
    var url := RunsUrl(site, repo, status);
    url in cache.etags ==>
      var p := PreviousOf(cache.previous, repo, status); p.Some? && decode(content(url, cache.etags[url])) == p
  }

  ghost predicate Paired(content: Content, decode: Decoder, site: Site, cache: Cache) {
    forall repo, status :: KnownStatus(status) ==> PairedAt(content, decode, site, cache, repo, status)
  }

  lemma OtherKeepsPairing(content: Content, decode: Decoder, site: Site, cache: Cache, url: string, c: Current)
    requires Paired(content, decode, site, cache) && Fits(content, decode, site, Other(url, c))
    ensures Paired(content, decode, site, After(cache, decode, site, Other(url, c)))
  {
    var after := After(cache, decode, site, Other(url, c));
    forall repo, status | KnownStatus(status) ensures PairedAt(content, decode, site, after, repo, status) {
      assert PairedAt(content, decode, site, cache, repo, status);
    }
  }

  lemma StoreLookup(previous: map<string, map<string, Runs>>, repo: string, status: string, runs: Runs, repo': string,
                    status': string)
    ensures PreviousOf(Store(previous, repo, status, runs), repo', status')
         == if repo' == repo && status' == status then Some(runs) else PreviousOf(previous, repo', status')
  {
  }

  /** What a well-behaved 200 leaves behind. */
  lemma FreshKeepsPairing(content: Content, decode: Decoder, site: Site, cache: Cache, repo: string, status: string,
                          etag: string)
    requires Paired(content, decode, site, cache) && KnownStatus(status)
    requires decode(content(RunsUrl(site, repo, status), etag)).Some?
    ensures var url := RunsUrl(site, repo, status);
            var runs := decode(content(url, etag)).value;
            Paired(content, decode, site, Cache(cache.etags[url := etag], Store(cache.previous, repo, status, runs)))
  {
    var url := RunsUrl(site, repo, status);
    var runs := decode(content(url, etag)).value;
    var after := Cache(cache.etags[url := etag], Store(cache.previous, repo, status, runs));
    forall repo', status' | KnownStatus(status') ensures PairedAt(content, decode, site, after, repo', status') {
      assert PairedAt(content, decode, site, cache, repo', status');
      StoreLookup(cache.previous, repo, status, runs, repo', status');
      if RunsUrl(site, repo', status') == url {
        RunsUrlInjective(site, repo, status, repo', status');
      }
    }
  }

  /** One request: the answer is the answer without ETags, and the pairing is kept. */
  lemma FetchAgrees(content: Content, decode: Decoder, site: Site, cache: Cache, repo: string, status: string,
                    c: Current)
    requires Paired(content, decode, site, cache) && Fits(content, decode, site, Workflow(repo, status, c))
    ensures Fetched(cache, true, decode, site, repo, status, c).0 ==
            Fetched(EMPTY, false, decode, site, repo, status, c).0
    ensures Fetched(cache, true, decode, site, repo, status, c).0 != PreviousNotSet
    ensures Paired(content, decode, site, Fetched(cache, true, decode, site, repo, status, c).1)
  {
    assert PairedAt(content, decode, site, cache, repo, status);
    if c.Serves? {
      FreshKeepsPairing(content, decode, site, cache, repo, status, c.etag);
    }
  }

  ghost predicate AgreesAt(decode: Decoder, site: Site, cache: Cache, repo: string, status: string, c: Current) {
    Fetched(cache, true, decode, site, repo, status, c).0 == Fetched(EMPTY, false, decode, site, repo, status, c).0
  }

  /** What the pairing needs to say: a remembered ETag of a page that decodes comes with that page's runs. */
  ghost predicate Usable(content: Content, decode: Decoder, site: Site, cache: Cache, repo: string, status: string) {
    var url := RunsUrl(site, repo, status);
    url in cache.etags && cache.etags[url] != "" && decode(content(url, cache.etags[url])).Some? ==>
      PreviousOf(cache.previous, repo, status) == decode(content(url, cache.etags[url]))
  }

  lemma UsableAgrees(content: Content, decode: Decoder, site: Site, cache: Cache, repo: string, status: string,
                     c: Current)
    requires Usable(content, decode, site, cache, repo, status)
    requires Promised(content, decode, RunsUrl(site, repo, status), c)
    ensures AgreesAt(decode, site, cache, repo, status, c)
  {
  }

  /** A request answers as without ETags, whatever the server has, exactly when that holds of its url. */
  lemma FetchAgreesExactly(content: Content, decode: Decoder, site: Site, cache: Cache, repo: string, status: string)
    ensures (forall c :: Promised(content, decode, RunsUrl(site, repo, status), c) ==>
                           AgreesAt(decode, site, cache, repo, status, c))
       <==> Usable(content, decode, site, cache, repo, status)
  {
    var url := RunsUrl(site, repo, status);
    if Usable(content, decode, site, cache, repo, status) {
      forall c | Promised(content, decode, url, c) ensures AgreesAt(decode, site, cache, repo, status, c) {
        UsableAgrees(content, decode, site, cache, repo, status, c);
      }
    } else {
      var c := Serves(cache.etags[url], content(url, cache.etags[url]));
      assert Promised(content, decode, url, c) && !AgreesAt(decode, site, cache, repo, status, c);
    }
  }

  lemma {:induction false} RunPaired(content: Content, decode: Decoder, site: Site, qs: seq<Request>)
    requires forall i :: 0 <= i < |qs| ==> Fits(content, decode, site, qs[i])
    ensures Paired(content, decode, site, AfterAll(EMPTY, decode, site, qs))
  {
    if qs == [] {
      forall repo, status | KnownStatus(status) ensures PairedAt(content, decode, site, EMPTY, repo, status) {
      }
    } else {
      var init, last := qs[..|qs| - 1], qs[|qs| - 1];
      RunPaired(content, decode, site, init);
      var cache := AfterAll(EMPTY, decode, site, init);
      match last
      case Workflow(repo, status, c) => FetchAgrees(content, decode, site, cache, repo, status, c);
      case Other(url, c) => OtherKeepsPairing(content, decode, site, cache, url, c);
    }
  }

  /** After any run of requests, 404s and failures included, `getWorkflowRuns` with ETags on answers what it would with
      ETags off, and never finds its previous runs missing. */
  lemma CacheTransparent(content: Content, decode: Decoder, site: Site, qs: seq<Request>, repo: string,
                         status: string, c: Current)
    requires forall i :: 0 <= i < |qs| ==> Fits(content, decode, site, qs[i])
    requires status == "queued" || status == "in_progress"
    requires Promised(content, decode, RunsUrl(site, repo, status), c)
    ensures var cache := AfterAll(EMPTY, decode, site, qs);
            && Fetched(cache, true, decode, site, repo, status, c).0 ==
              Fetched(EMPTY, false, decode, site, repo, status, c).0
            && Fetched(cache, true, decode, site, repo, status, c).0 != PreviousNotSet
  {
    RunPaired(content, decode, site, qs);
    FetchAgrees(content, decode, site, AfterAll(EMPTY, decode, site, qs), repo, status, c);
  }

  /** The promise that a 200 decodes is needed: the ETag is remembered before decoding fails, so the same page then
      finds no previous runs. */
  lemma UndecodableIsRemembered(decode: Decoder, site: Site, repo: string, status: string, etag: string, body: string)
    requires etag != "" && decode(body).None?
    ensures var cache := AfterAll(EMPTY, decode, site, [Workflow(repo, status, Serves(etag, body))]);
            Fetched(cache, true, decode, site, repo, status, Serves(etag, body)).0 == PreviousNotSet
  {
    var q := Workflow(repo, status, Serves(etag, body));
    assert [q][..0] == [];
    assert AfterAll(EMPTY, decode, site, [q]) == After(EMPTY, decode, site, q);
  }

  /** So is the ETag on every 200: a page served without one in between makes the next 304 answer with that page. */
  lemma UntaggedIsConfused(decode: Decoder, site: Site, repo: string, status: string, etag: string, one: string,
                           two: string)
    requires etag != "" && decode(one).Some? && decode(two).Some?
    ensures var cache := AfterAll(EMPTY, decode, site, [Workflow(repo, status, Serves(etag, one)),
                                                        Workflow(repo, status, Serves("", two))]);
            Fetched(cache, true, decode, site, repo, status, Serves(etag, one)).0 == Found(decode(two).value)
  {
    var q, q' := Workflow(repo, status, Serves(etag, one)), Workflow(repo, status, Serves("", two));
    assert [q, q'][..1] == [q] && [q][..0] == [];
    var first := After(EMPTY, decode, site, q);
    assert AfterAll(EMPTY, decode, site, [q]) == first;
    assert AfterAll(EMPTY, decode, site, [q, q']) == After(first, decode, site, q');
  }

  // ---- The scaler ----------------------------------------------------------

  class GithubRunnerScaler {
    const enabled: bool
    const decode: Decoder
    const site: Site
    var etags: map<string, string>
    var previousWfrs: map<string, map<string, Runs>>

    constructor (enabled: bool, decode: Decoder, site: Site)
      ensures this.enabled == enabled && this.decode == decode && this.site == site && State() == EMPTY
    {
      this.enabled, this.decode, this.site := enabled, decode, site;
      etags, previousWfrs := map[], map[];
    }

    ghost function State(): Cache
      reads this
    {
      Cache(etags, previousWfrs)
    }

    method GetGithubRequest(url: string, c: Current) returns (r: Response)
      modifies this`etags
      ensures (r, etags) == Requested(old(etags), enabled, url, c)
    {
      var condition: Option<string> := None;
      if enabled && url in etags {
        condition := Some(etags[url]);
      }
      r := Respond(c, condition);
      if r.Response? && r.code == 200 && enabled && r.etag != "" {
        etags := etags[url := r.etag];
      }
    }

    /** With the pairing in place the answer is the one without ETags. */
    method GetWorkflowRuns(repo: string, status: string, c: Current, ghost content: Content) returns (a: Answer)
      modifies this
      ensures (a, State()) == Fetched(old(State()), enabled, decode, site, repo, status, c)
      ensures enabled && old(Paired(content, decode, site, State())) &&
              Fits(content, decode, site, Workflow(repo, status, c))
              ==> Paired(content, decode, site, State()) && a == Fetched(EMPTY, false, decode, site, repo, status, c).0
    {
      ghost var was := State();
      a := Fetch(repo, status, c);
      if enabled && Paired(content, decode, site, was) && Fits(content, decode, site, Workflow(repo, status, c)) {
        FetchAgrees(content, decode, site, was, repo, status, c);
      }
    }

    method Fetch(repo: string, status: string, c: Current) returns (a: Answer)
      modifies this
      ensures (a, State()) == Fetched(old(State()), enabled, decode, site, repo, status, c)
    {
      var r := GetGithubRequest(RunsUrl(site, repo, status), c);
      if r.NoResponse? {
        return RequestFailed(-1);
      }
      if r.code != 200 && !(r.code == 304 && enabled) {
        return if r.code == 404 then Absent else RequestFailed(r.code);
      }
      if r.code == 304 && enabled {
        if repo in previousWfrs && status in previousWfrs[repo] {
          return Found(previousWfrs[repo][status]);
        }
        return PreviousNotSet;
      }
      var runs := decode(r.body);
      if runs.None? {
        return Undecodable;
      }
      if enabled {
        if repo !in previousWfrs {
          previousWfrs := previousWfrs[repo := map[status := runs.value]];
        } else {
          previousWfrs := previousWfrs[repo := previousWfrs[repo][status := runs.value]];
        }
      }
      a := Found(runs.value);
    }
  }
}
