/** The purge of every tenant of an origin: paginated listing, selection, fan-out with partial failure. */
module Purge {
  import opened Common
  import opened Text
  import opened Sorting
  import opened CallerReference

  datatype TenantSummary = TenantSummary(id: string, distributionId: string, domains: set<string>, enabled: Option<bool>)

  datatype Page = Page(tenants: seq<TenantSummary>, nextMarker: Option<string>)

  datatype PurgeError =
    | UrlsNotSupported
    | ListingFailed
    | RepeatedMarker
    | FanOutFailed(requestIds: seq<string>, submittedItems: nat, tenantId: string)

  datatype PurgeResult = PurgeResult(requestIds: seq<string>, skipped: bool, submittedItems: nat)

  datatype PurgeMode = All | Paths(paths: seq<string>) | Urls(urls: seq<string>)

  /** The listing as the server answers it: the reply to call `n`, given the marker it is sent. */
  datatype Listing = Listing(reply: (nat, Option<string>) -> Result<Page, string>)

  // ----- the marker chain

  /** The marker sent with call `n`. */
  function MarkerAt(l: Listing, n: nat): Option<string> {
    if n == 0 then None
    else match l.reply(n - 1, MarkerAt(l, n - 1))
      case Ok(page) => page.nextMarker
      case Err(_) => None
  }

  function ReplyAt(l: Listing, n: nat): Result<Page, string> {
    l.reply(n, MarkerAt(l, n))
  }

  /** The first `n` pages came and each named a next one. */
  ghost predicate Continues(l: Listing, n: nat) {
    forall i :: 0 <= i < n ==> ReplyAt(l, i).Ok? && ReplyAt(l, i).value.nextMarker.Some?
  }

  ghost predicate NoRepeat(l: Listing, n: nat) {
    forall i, j :: 1 <= i < j <= n ==> MarkerAt(l, i) != MarkerAt(l, j)
  }

  ghost predicate Completes(l: Listing, n: nat) {
    Continues(l, n) && NoRepeat(l, n) && ReplyAt(l, n).Ok? && ReplyAt(l, n).value.nextMarker.None?
  }

  ghost predicate Cycles(l: Listing, n: nat) {
    n > 0 && Continues(l, n) && NoRepeat(l, n - 1) && exists i :: 1 <= i < n && MarkerAt(l, i) == MarkerAt(l, n)
  }

  ghost predicate Breaks(l: Listing, n: nat) {
    Continues(l, n) && NoRepeat(l, n) && ReplyAt(l, n).Err?
  }

  /** The tenants of the first `n` pages, in order. */
  function Gathered(l: Listing, n: nat): seq<TenantSummary> {
    if n == 0 then [] else Gathered(l, n - 1) + match ReplyAt(l, n - 1) case Ok(page) => page.tenants case Err(_) => []
  }

  /** The markers received in the first `n` replies. */
  function Seen(l: Listing, n: nat): set<string> {
    set i | 1 <= i <= n && MarkerAt(l, i).Some? :: MarkerAt(l, i).value
  }

  lemma SizeOfSubset(a: set<string>, b: set<string>)
    requires a <= b
    ensures |a| <= |b|
  {
    assert b == a + (b - a);
  }

  /** A listing ends in one way and at one place. */
  lemma OneEnding(l: Listing, a: nat, b: nat)
    requires Completes(l, a) || Cycles(l, a) || Breaks(l, a)
    requires Completes(l, b) || Cycles(l, b) || Breaks(l, b)
    ensures a == b
    ensures (Completes(l, a) <==> Completes(l, b)) && (Cycles(l, a) <==> Cycles(l, b)) && (Breaks(l, a) <==> Breaks(l, b))
    ensures !(Completes(l, a) && Cycles(l, a)) && !(Completes(l, a) && Breaks(l, a)) && !(Cycles(l, a) && Breaks(l, a))
  {
    EndsFirst(l, a, b);
    EndsFirst(l, b, a);
  }

  lemma EndsFirst(l: Listing, a: nat, b: nat)
    requires Completes(l, a) || Cycles(l, a) || Breaks(l, a)
    requires Completes(l, b) || Cycles(l, b) || Breaks(l, b)
    ensures a >= b
  {
    if a < b {
      assert false;
    }
  }

  /** Pagination ends on any server whose markers come from a finite set. It reads up to the last
      page, or up to the first marker that comes back, or up to the first failing call. */
  method ListTenants(l: Listing, ghost markers: set<string>) returns (r: Result<seq<TenantSummary>, PurgeError>, ghost n: nat)
    requires forall i, m :: l.reply(i, m).Ok? && l.reply(i, m).value.nextMarker.Some? ==> l.reply(i, m).value.nextMarker.value in markers
    ensures n <= |markers| + 1
    ensures match r
      case Ok(tenants) => Completes(l, n) && tenants == Gathered(l, n + 1)
      case Err(e) => (e == RepeatedMarker && Cycles(l, n)) || (e == ListingFailed && Breaks(l, n))
    ensures r.Ok? <==> exists k: nat :: Completes(l, k)
    ensures r.Ok? ==> exists k: nat :: Completes(l, k) && r.value == Gathered(l, k + 1)
    ensures r == Err(RepeatedMarker) <==> exists k: nat :: Cycles(l, k)
    ensures r == Err(ListingFailed) <==> exists k: nat :: Breaks(l, k)
  {
    r, n := ReadPages(l, markers);
    forall k: nat | Completes(l, k) || Cycles(l, k) || Breaks(l, k) ensures k == n {
      OneEnding(l, k, n);
    }
    OneEnding(l, n, n);
  }

  method ReadPages(l: Listing, ghost markers: set<string>) returns (r: Result<seq<TenantSummary>, PurgeError>, ghost n: nat)
    requires forall i, m :: l.reply(i, m).Ok? && l.reply(i, m).value.nextMarker.Some? ==> l.reply(i, m).value.nextMarker.value in markers
    ensures n <= |markers| + 1
    ensures match r
      case Ok(tenants) => Completes(l, n) && tenants == Gathered(l, n + 1)
      case Err(e) => (e == RepeatedMarker && Cycles(l, n)) || (e == ListingFailed && Breaks(l, n))
  {
    var marker: Option<string> := None;
    var seenMarkers: set<string> := {};
    var tenants: seq<TenantSummary> := [];
    var call: nat := 0;
    n := 0;
    assert Seen(l, 0) == {};
    while true
      invariant n == call && Continues(l, n) && NoRepeat(l, n)
      invariant marker == MarkerAt(l, n) && seenMarkers == Seen(l, n) && tenants == Gathered(l, n)
      invariant seenMarkers <= markers && |seenMarkers| == n
      decreases |markers| - |seenMarkers|
    {
      SizeOfSubset(seenMarkers, markers);
      var reply := l.reply(call, marker);
      if reply.Err? {
        return Err(ListingFailed), n;
      }
      tenants := tenants + reply.value.tenants;
      if reply.value.nextMarker.None? {
        LastPage(l, n);
        return Ok(tenants), n;
      }
      var next := reply.value.nextMarker.value;
      assert MarkerAt(l, n + 1) == Some(next);
      if next in seenMarkers {
        RepeatCycles(l, n);
        return Err(RepeatedMarker), n + 1;
      }
      ExtendSeen(l, n);
      seenMarkers := seenMarkers + {next};
      SizeOfSubset(seenMarkers, markers);
      marker := Some(next);
      call, n := call + 1, n + 1;
    }
  }

  lemma LastPage(l: Listing, n: nat)
    requires Continues(l, n) && NoRepeat(l, n) && ReplyAt(l, n).Ok? && ReplyAt(l, n).value.nextMarker.None?
    ensures Completes(l, n) && Gathered(l, n + 1) == Gathered(l, n) + ReplyAt(l, n).value.tenants
  {
  }

  lemma RepeatCycles(l: Listing, n: nat)
    requires Continues(l, n) && NoRepeat(l, n) && ReplyAt(l, n).Ok? && ReplyAt(l, n).value.nextMarker.Some?
    requires ReplyAt(l, n).value.nextMarker.value in Seen(l, n)
    ensures Cycles(l, n + 1)
  {
    var i :| 1 <= i <= n && MarkerAt(l, i).Some? && MarkerAt(l, i).value == ReplyAt(l, n).value.nextMarker.value;
    assert MarkerAt(l, i) == MarkerAt(l, n + 1);
  }

  lemma ExtendSeen(l: Listing, n: nat)
    requires Continues(l, n) && NoRepeat(l, n) && ReplyAt(l, n).Ok? && ReplyAt(l, n).value.nextMarker.Some?
    requires ReplyAt(l, n).value.nextMarker.value !in Seen(l, n)
    ensures Seen(l, n + 1) == Seen(l, n) + {ReplyAt(l, n).value.nextMarker.value}
    ensures Gathered(l, n + 1) == Gathered(l, n) + ReplyAt(l, n).value.tenants
    ensures Continues(l, n + 1) && NoRepeat(l, n + 1)
  {
    assert MarkerAt(l, n + 1) == ReplyAt(l, n).value.nextMarker;
    forall i | 1 <= i <= n ensures MarkerAt(l, i) != MarkerAt(l, n + 1) {
      assert ReplyAt(l, i - 1).Ok? && MarkerAt(l, i).Some?;
    }
  }

  /** The replies depend on the marker alone. */
  ghost predicate Stateless(l: Listing) {
    forall i, j, m :: l.reply(i, m) == l.reply(j, m)
  }

  lemma {:induction false} ChainRepeats(l: Listing, i: nat, j: nat, k: nat)
    requires Stateless(l) && MarkerAt(l, i) == MarkerAt(l, j)
    ensures MarkerAt(l, i + k) == MarkerAt(l, j + k) && ReplyAt(l, i + k) == ReplyAt(l, j + k)
  {
    if k > 0 {
      ChainRepeats(l, i, j, k - 1);
      assert l.reply(i + k - 1, MarkerAt(l, i + k - 1)) == l.reply(j + k - 1, MarkerAt(l, i + k - 1));
    }
    assert l.reply(i + k, MarkerAt(l, i + k)) == l.reply(j + k, MarkerAt(l, i + k));
  }

  lemma {:induction false} CycleNeverEnds(l: Listing, i: nat, n: nat, k: nat)
    requires Stateless(l) && i < n && Continues(l, n) && MarkerAt(l, i) == MarkerAt(l, n)
    ensures ReplyAt(l, k).Ok? && ReplyAt(l, k).value.nextMarker.Some?
    decreases k
  {
    if k >= n {
      CycleNeverEnds(l, i, n, i + (k - n));
      ChainRepeats(l, i, n, k - n);
    }
  }

  /** A repeated marker is an error exactly when the pages would go on for ever, and the listing
      completes exactly when there is a last page; no other ending is possible while calls succeed. */
  lemma PaginationIsExact(l: Listing, n: nat)
    requires Stateless(l) && (forall i, m :: l.reply(i, m).Ok?) && (Completes(l, n) || Cycles(l, n))
    ensures Completes(l, n) <==> exists k: nat :: ReplyAt(l, k).value.nextMarker.None?
    ensures Cycles(l, n) <==> forall k: nat :: ReplyAt(l, k).value.nextMarker.Some?
  {
    assert forall k: nat :: ReplyAt(l, k).Ok?;
    if Cycles(l, n) {
      var i :| 1 <= i < n && MarkerAt(l, i) == MarkerAt(l, n);
      forall k: nat ensures ReplyAt(l, k).value.nextMarker.Some? {
        CycleNeverEnds(l, i, n, k);
      }
      assert !Completes(l, n);
    } else {
      assert ReplyAt(l, n).value.nextMarker.None?;
    }
  }

  // ----- selection

  predicate Selected(distributionId: string, exactHosts: set<string>, t: TenantSummary) {
    t.enabled != Some(false) && t.distributionId == distributionId && t.domains * exactHosts != {}
  }

  predicate IdBefore(a: TenantSummary, b: TenantSummary) {
    a.id != b.id && AtMost(a.id, b.id)
  }

  function Targets(distributionId: string, exactHosts: set<string>, tenants: seq<TenantSummary>): seq<TenantSummary> {
    StableSort(Filter(Selecting(distributionId, exactHosts), tenants), IdBefore)
  }

  function Selecting(distributionId: string, exactHosts: set<string>): TenantSummary -> bool {
    (t: TenantSummary) => Selected(distributionId, exactHosts, t)
  }

  ghost predicate IsServing(distributionId: string, exactHosts: set<string>, t: TenantSummary) {
    && t.distributionId == distributionId && (t.enabled.Some? ==> t.enabled.value)
    && exists host :: host in t.domains && host in exactHosts
  }

  lemma IdOrderIsWeak()
    ensures StrictWeak(IdBefore)
  {
    forall a: TenantSummary, b | IdBefore(a, b) ensures !IdBefore(b, a) {
      if IdBefore(b, a) { AtMostAntisymmetric(a.id, b.id); }
    }
    forall a: TenantSummary, b, c: TenantSummary | IdBefore(a, b) ensures IdBefore(a, c) || IdBefore(c, b) {
      AtMostTotal(a.id, c.id);
      AtMostTotal(c.id, b.id);
      if !IdBefore(a, c) && !IdBefore(c, b) && a.id != c.id && c.id != b.id {
        AtMostTransitive(b.id, c.id, a.id);
        AtMostAntisymmetric(a.id, b.id);
      }
    }
  }

  /** The targets are exactly the tenants of the distribution that are not disabled and serve one of the
      hosts, each as often as it was listed, in ascending order of id. */
  lemma TargetsMeaning(distributionId: string, exactHosts: set<string>, tenants: seq<TenantSummary>)
    ensures var targets := Targets(distributionId, exactHosts, tenants);
      && (forall t :: t in targets <==> t in tenants && IsServing(distributionId, exactHosts, t))
      && (forall t :: t in targets ==> multiset(targets)[t] == multiset(tenants)[t])
      && forall i, j :: 0 <= i < j < |targets| ==> AtMost(targets[i].id, targets[j].id)
  {
    var selected := Filter(Selecting(distributionId, exactHosts), tenants);
    var targets := Targets(distributionId, exactHosts, tenants);
    FilterMeaning(Selecting(distributionId, exactHosts), tenants);
    SortKeepsElements(selected, IdBefore);
    forall t ensures t in targets <==> t in tenants && IsServing(distributionId, exactHosts, t) {
      SelectedExactly(distributionId, exactHosts, t);
      assert Selecting(distributionId, exactHosts)(t) == Selected(distributionId, exactHosts, t);
      assert t in targets <==> t in multiset(targets);
      assert t in selected <==> t in multiset(selected);
    }
    forall t | t in targets ensures multiset(targets)[t] == multiset(tenants)[t] {
      SelectedExactly(distributionId, exactHosts, t);
      FilterCounts(Selecting(distributionId, exactHosts), tenants, t);
    }
    TargetsAscend(selected);
  }

  lemma SelectedExactly(distributionId: string, exactHosts: set<string>, t: TenantSummary)
    ensures Selected(distributionId, exactHosts, t) <==> IsServing(distributionId, exactHosts, t)
  {
    if host :| host in t.domains && host in exactHosts {
      assert host in t.domains * exactHosts;
    }
  }

  lemma TargetsAscend(selected: seq<TenantSummary>)
    ensures var targets := StableSort(selected, IdBefore); forall i, j :: 0 <= i < j < |targets| ==> AtMost(targets[i].id, targets[j].id)
  {
    var targets := StableSort(selected, IdBefore);
    IdOrderIsWeak();
    SortSorts(selected, IdBefore);
    forall i, j | 0 <= i < j < |targets| ensures AtMost(targets[i].id, targets[j].id) {
      AtMostTotal(targets[i].id, targets[j].id);
      assert !IdBefore(targets[j], targets[i]);
    }
  }

  // ----- fan-out

  datatype TenantInvalidation = TenantInvalidation(tenantId: string, callerReference: string, paths: seq<string>)

  /** What one purge is about, with the hash and the text encoding it uses. */
  datatype Job = Job(namespace: Bytes, originId: string, generation: nat, paths: seq<string>, utf8: string -> Bytes, sha256: Bytes -> string)

  function Encoded(utf8: string -> Bytes, texts: seq<string>): (r: seq<Bytes>)
    ensures |r| == |texts| && forall i :: 0 <= i < |texts| ==> r[i] == utf8(texts[i])
  {
    seq(|texts|, i requires 0 <= i < |texts| => utf8(texts[i]))
  }

  function SubjectOf(job: Job, tenantId: string): Invalidation {
    Invalidation(job.namespace, job.utf8(job.originId), job.generation, job.utf8(tenantId), Encoded(job.utf8, job.paths))
  }

  function RequestFor(job: Job, tenantId: string): TenantInvalidation {
    TenantInvalidation(tenantId, REFERENCE_PREFIX + job.sha256(Preimage(SubjectOf(job, tenantId))), job.paths)
  }

  /** The service's answer to the `k`-th invalidation of a purge. */
  type Invalidator = (nat, TenantInvalidation) -> Result<string, string>

  function AnswerAt(invalidate: Invalidator, job: Job, targets: seq<TenantSummary>, k: nat): Result<string, string>
    requires k < |targets|
  {
    invalidate(k, RequestFor(job, targets[k].id))
  }

  /** The first `k` invalidations went through, with these request ids. */
  ghost predicate Through(invalidate: Invalidator, job: Job, targets: seq<TenantSummary>, k: nat, requestIds: seq<string>) {
    && k <= |targets| && |requestIds| == k
    && forall i :: 0 <= i < k ==> AnswerAt(invalidate, job, targets, i) == Ok(requestIds[i])
  }

  /** The `k`-th invalidation was the first to fail, and the error says what went through before it. */
  ghost predicate StoppedAt(invalidate: Invalidator, job: Job, targets: seq<TenantSummary>, k: nat, e: PurgeError)
    requires k < |targets| && e.FanOutFailed?
  {
    && Through(invalidate, job, targets, k, e.requestIds) && AnswerAt(invalidate, job, targets, k).Err?
    && e.submittedItems == |job.paths| * k && e.tenantId == targets[k].id
  }

  lemma StopsHere(invalidate: Invalidator, job: Job, targets: seq<TenantSummary>, k: nat, requestIds: seq<string>, items: nat)
    requires k < |targets| && Through(invalidate, job, targets, k, requestIds) && AnswerAt(invalidate, job, targets, k).Err?
    requires items == |job.paths| * |requestIds|
    ensures |requestIds| == k && StoppedAt(invalidate, job, targets, k, FanOutFailed(requestIds, items, targets[k].id))
  {
  }

  lemma ThroughOneMore(invalidate: Invalidator, job: Job, targets: seq<TenantSummary>, k: nat, requestIds: seq<string>, id: string)
    requires k < |targets| && Through(invalidate, job, targets, k, requestIds) && AnswerAt(invalidate, job, targets, k) == Ok(id)
    ensures Through(invalidate, job, targets, k + 1, requestIds + [id])
  {
  }

  method InvalidateTenant(invalidate: Invalidator, job: Job, targets: seq<TenantSummary>, k: nat) returns (answer: Result<string, string>)
    requires k < |targets|
    ensures answer == AnswerAt(invalidate, job, targets, k)
  {
    var reference := InvalidationCallerReference(SubjectOf(job, targets[k].id), job.sha256);
    answer := invalidate(k, TenantInvalidation(targets[k].id, reference, job.paths));
  }

  /** One invalidation per target, in order. A failure at position `k` reports the `k` ids obtained so
      far and `k` times the number of paths; success reports one id per target and every item. */
  method FanOut(invalidate: Invalidator, job: Job, targets: seq<TenantSummary>) returns (r: Result<PurgeResult, PurgeError>)
    ensures match r
      case Ok(done) => !done.skipped && done.submittedItems == |job.paths| * |targets| && Through(invalidate, job, targets, |targets|, done.requestIds)
      case Err(e) => e.FanOutFailed? && |e.requestIds| < |targets| && StoppedAt(invalidate, job, targets, |e.requestIds|, e)
  {
    var requestIds: seq<string> := [];
    for k := 0 to |targets|
      invariant Through(invalidate, job, targets, k, requestIds)
    {
      var answer := InvalidateTenant(invalidate, job, targets, k);
      if answer.Err? {
        var items := |job.paths| * |requestIds|;
        StopsHere(invalidate, job, targets, k, requestIds, items);
        return Err(FanOutFailed(requestIds, items, targets[k].id));
      }
      ThroughOneMore(invalidate, job, targets, k, requestIds, answer.value);
      requestIds := requestIds + [answer.value];
    }
    return Ok(PurgeResult(requestIds, false, |job.paths| * |targets|));
  }

  const EVERY_PATH := ["/*"]

  function EnsurePathsMode(mode: PurgeMode): Result<seq<string>, PurgeError> {
    match mode
    case All => Ok(EVERY_PATH)
    case Paths(paths) => Ok(paths)
    case Urls(_) => Err(UrlsNotSupported)
  }

  /** The whole purge, of everything or of the paths named: what it targets is what the listing held, and what it reports is what went through. */
  method PurgeTenants(l: Listing, ghost markers: set<string>, invalidate: Invalidator, distributionId: string, exactHosts: set<string>,
                      mode: PurgeMode, job: Job)
    returns (r: Result<PurgeResult, PurgeError>, ghost n: nat)
    requires forall i, m :: l.reply(i, m).Ok? && l.reply(i, m).value.nextMarker.Some? ==> l.reply(i, m).value.nextMarker.value in markers
    ensures r == Err(UrlsNotSupported) <==> mode.Urls?
    ensures r == Err(RepeatedMarker) ==> Cycles(l, n)
    ensures r == Err(ListingFailed) ==> Breaks(l, n)
    ensures r.Ok? || (r.Err? && r.error.FanOutFailed?) ==> Completes(l, n)
    ensures !mode.Urls? ==>
      var targets := Targets(distributionId, exactHosts, Gathered(l, n + 1));
      var told := job.(paths := if mode.All? then EVERY_PATH else mode.paths);
      && (r.Ok? ==> (r.value.skipped <==> targets == []))
      && (r.Ok? ==> |r.value.requestIds| == |targets| && r.value.submittedItems == |told.paths| * |targets|)
      && (r.Ok? ==> Through(invalidate, told, targets, |targets|, r.value.requestIds))
      && (r.Err? && r.error.FanOutFailed? ==>
            |r.error.requestIds| < |targets| && StoppedAt(invalidate, told, targets, |r.error.requestIds|, r.error))
  {
    n := 0;
    var paths := EnsurePathsMode(mode);
    if paths.Err? {
      return Err(paths.error), n;
    }
    var listed;
    listed, n := ListTenants(l, markers);
    if listed.Err? {
      return Err(listed.error), n;
    }
    var targets := Targets(distributionId, exactHosts, listed.value);
    if targets == [] {
      return Ok(PurgeResult([], true, 0)), n;
    }
    r := FanOut(invalidate, job.(paths := paths.value), targets);
  }

  /** Two tenants of one purge share a caller reference only if the hash collides on their two preimages. */
  lemma ReferencesTellTenantsApart(job: Job, a: string, b: string)
    requires InRange(SubjectOf(job, a)) && InRange(SubjectOf(job, b))
    requires forall x, y :: job.utf8(x) == job.utf8(y) ==> x == y
    requires RequestFor(job, a).callerReference == RequestFor(job, b).callerReference
    ensures var x, y := Preimage(SubjectOf(job, a)), Preimage(SubjectOf(job, b));
      a == b || (x != y && job.sha256(x) == job.sha256(y))
  {
    ReferencesCollideOnlyIfHashDoes(SubjectOf(job, a), SubjectOf(job, b), job.sha256);
  }

  /** Every length and the generation fit in eight bytes. */
  predicate IsCountable(job: Job, tenantId: string) {
    && |job.namespace| < TWO_64 && |job.utf8(job.originId)| < TWO_64 && job.generation < TWO_64 && |job.utf8(tenantId)| < TWO_64
    && |job.paths| < TWO_64 && forall i :: 0 <= i < |job.paths| ==> |job.utf8(job.paths[i])| < TWO_64
  }

  /** A request names its tenant and all paths, and its caller reference hashes bytes that tell namespace,
      origin, generation, tenant and each path. */
  lemma RequestSays(job: Job, tenantId: string) returns (hashed: Bytes)
    requires IsCountable(job, tenantId)
    ensures RequestFor(job, tenantId) == TenantInvalidation(tenantId, "rendermesh-" + job.sha256(hashed), job.paths)
    ensures var told := Decode(hashed);
      && told.Some? && told.value.namespace == job.namespace && told.value.originId == job.utf8(job.originId)
      && told.value.generation == job.generation && told.value.tenantId == job.utf8(tenantId)
      && |told.value.paths| == |job.paths| && forall i :: 0 <= i < |job.paths| ==> told.value.paths[i] == job.utf8(job.paths[i])
  {
    hashed := Preimage(SubjectOf(job, tenantId));
    DecodeOfPreimage(SubjectOf(job, tenantId));
  }
}
