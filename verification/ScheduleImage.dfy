/** What the scheduler stores about its jobs, and what comes back when it is loaded. */
module ScheduleImage {
  import opened Prelude
  import opened ScheduledRuns

  datatype StoredTarget = StoredText(text: string) | StoredFunction(module_: Option<string>, name: Option<string>)

  /** A job as it is stored. */
  datatype Record = Record(
    id: string, name: string, target: StoredTarget, arguments: seq<string>, keywords: map<string, string>,
    priority: int, retries: int, timeout: Option<real>,
    interval: Option<real>, delay: Option<real>, cron: Option<string>, maxRuns: Option<int>,
    runCount: int, createdAt: Time, lastRun: Option<Time>, nextRun: Option<Time>, cancelled: bool)

  /** The arguments of a job's construction. */
  datatype Request = Request(
    target: Target, arguments: seq<string>, keywords: map<string, string>, id: Option<string>, name: Option<string>,
    priority: int, retries: int, timeout: Option<real>,
    interval: Option<real>, delay: Option<real>, cron: Option<string>, maxRuns: Option<int>,
    nextRun: Option<Time>, runCount: int, lastRun: Option<Time>, createdAt: Option<Time>)

  /** What the host supplies to a construction: a fresh id, two clock readings, the cron search and the import system. */
  datatype Host = Host(freshId: string, created: Time, now: Time, cron: CronSearch, imports: (string, string) -> Option<Target>)

  type View = map<string, JobState>
  type Image = seq<(string, Record)>

  /** `value or fallback` for strings. */
  function Or(value: Option<string>, fallback: string): string {
    if value.Some? && value.value != "" then value.value else fallback
  }

  /** Constructing a job; nothing when the cron search raises. */
  function Constructed(q: Request, host: Host): Option<JobState> {
    var id := Or(q.id, host.freshId);
    var name := Or(q.name, "sched-job-" + if |id| < 8 then id else id[..8]);
    var createdAt := if q.createdAt.Some? && q.createdAt.value != 0.0 then q.createdAt.value else host.created;
    var plan := Plan(id, name, q.target, q.arguments, q.keywords, q.priority, q.retries, q.timeout,
                     q.interval, q.delay, q.cron, q.maxRuns, createdAt);
    var s := JobState(plan, q.runCount, q.lastRun, q.nextRun, false);
    if q.nextRun.Some? then Some(s) else Calculated(s, host.now, host.cron)
  }

  /** A job made by `schedule_job` is sane: the arguments leave the next run to be calculated. */
  lemma ConstructedIsSane(q: Request, host: Host)
    requires q.nextRun.None? && q.runCount == 0
    ensures Constructed(q, host).Some? ==> Sane(Constructed(q, host).value) && Going(Constructed(q, host).value)
  {
  }

  /**
   When a new job runs first: the delay after its construction, else when the cron search says, else
   the interval after it, else at once; never, when it is allowed no runs. It is not made when the cron
   search is asked and raises.
   */
  lemma FirstRun(q: Request, host: Host)
    requires q.nextRun.None? && q.runCount == 0
    ensures var made, none := Constructed(q, host), q.maxRuns.Some? && q.maxRuns.value <= 0;
      && (made.None? <==> !none && q.delay.None? && q.cron.Some? && host.cron(q.cron.value, host.now).None?)
      && (made.Some? ==>
            && made.value.runCount == 0 && made.value.lastRun == q.lastRun && !made.value.cancelled
            && (none ==> made.value.nextRun == None)
            && (!none && q.delay.Some? ==> made.value.nextRun == Some(host.now + q.delay.value))
            && (!none && q.delay.None? && q.cron.Some? ==> made.value.nextRun == host.cron(q.cron.value, host.now))
            && (!none && q.delay.None? && q.cron.None? && q.interval.Some? ==>
                  made.value.nextRun == Some(host.now + q.interval.value))
            && (!none && q.delay.None? && q.cron.None? && q.interval.None? ==> made.value.nextRun == Some(host.now)))
  {
  }

  /** A job made with a next run time given keeps that one. */
  lemma GivenNextRun(q: Request, host: Host)
    requires q.nextRun.Some?
    ensures Constructed(q, host).Some? && Constructed(q, host).value.nextRun == q.nextRun
    ensures Constructed(q, host).value.runCount == q.runCount && Constructed(q, host).value.lastRun == q.lastRun
  {
  }

  /** What a new job is made of: what was asked for, a fresh id and a name from it where none is given, and the time of its making. */
  lemma MadeAsAsked(q: Request, host: Host)
    requires Constructed(q, host).Some?
    ensures var p := Constructed(q, host).value.plan;
      && p.id == (if q.id.Some? && q.id.value != "" then q.id.value else host.freshId)
      && (q.name.Some? && q.name.value != "" ==> p.name == q.name.value)
      && (q.name.None? && |p.id| >= 8 ==> p.name == "sched-job-" + p.id[..8])
      && p.target == q.target && p.arguments == q.arguments && p.keywords == q.keywords
      && p.priority == q.priority && p.retries == q.retries && p.timeout == q.timeout
      && p.interval == q.interval && p.delay == q.delay && p.cron == q.cron && p.maxRuns == q.maxRuns
      && (q.createdAt.None? ==> p.createdAt == host.created)
      && (q.createdAt.Some? && q.createdAt.value != 0.0 ==> p.createdAt == q.createdAt.value)
  {
  }

  function StoreTarget(t: Target): Option<StoredTarget> {
    match t
    case Text(text) => Some(StoredText(text))
    case Function(m, n) => Some(StoredFunction(m, n))
    case Other => None
  }

  function LoadTarget(t: StoredTarget, imports: (string, string) -> Option<Target>): Target {
    match t
    case StoredText(text) => Text(text)
    case StoredFunction(m, n) =>
      if Or(m, "") != "" && Or(n, "") != "" && imports(m.value, n.value).Some? then imports(m.value, n.value).value
      else if n.Some? then Text(n.value)
      else Other
  }

  /** `to_dict`; nothing when the target cannot be serialised. */
  function ToRecord(s: JobState): Option<Record> {
    match StoreTarget(s.plan.target)
    case None => None
    case Some(target) =>
      var p := s.plan;
      Some(Record(p.id, p.name, target, p.arguments, p.keywords, p.priority, p.retries, p.timeout,
                  p.interval, p.delay, p.cron, p.maxRuns, s.runCount, p.createdAt, s.lastRun, s.nextRun, s.cancelled))
  }

  function FromRecord(r: Record, host: Host): Option<JobState> {
    Constructed(Request(LoadTarget(r.target, host.imports), r.arguments, r.keywords, Some(r.id), Some(r.name),
                        r.priority, r.retries, r.timeout, r.interval, r.delay, r.cron, r.maxRuns,
                        r.nextRun, r.runCount, r.lastRun, Some(r.createdAt)), host)
  }

  /** A function that is not found again comes back as the text of its name, and as nothing when it has no name. */
  lemma LostFunction(m: Option<string>, n: Option<string>, imports: (string, string) -> Option<Target>)
    requires m.Some? && n.Some? ==> m.value == "" || n.value == "" || imports(m.value, n.value) == None
    ensures n.Some? ==> LoadTarget(StoredFunction(m, n), imports) == Text(n.value)
    ensures n.None? ==> LoadTarget(StoredFunction(m, n), imports) == Other
  {
  }

  /** A target that is text, or a function the import system finds again under its module and name. */
  predicate FoundAgain(t: Target, imports: (string, string) -> Option<Target>) {
    match t
    case Text(_) => true
    case Function(m, n) => Or(m, "") != "" && Or(n, "") != "" && imports(m.value, n.value) == Some(t)
    case Other => false
  }

  /**
   Stored and loaded again an active job comes back as itself, exactly when its target is text or is
   found again, and its creation time is not taken for a missing one.
   */
  lemma RoundTripIff(s: JobState, host: Host)
    requires Active(s) && s.plan.id != "" && s.plan.name != "" && ToRecord(s).Some?
    ensures FromRecord(ToRecord(s).value, host) == Some(s) <==>
              && FoundAgain(s.plan.target, host.imports)
              && (s.plan.createdAt != 0.0 || host.created == 0.0)
  {
  }

  // ---------------------------------------------------------------- the image of all jobs

  /** The jobs by id, and the ids in the order the dictionary keeps them. */
  ghost predicate Keyed(order: seq<string>, view: View) {
    && Distinct(order) && (forall id :: id in order <==> id in view)
    && forall id | id in view :: view[id].plan.id == id
  }

  predicate Stored(s: JobState) {
    Active(s) && ToRecord(s).Some?
  }

  /** What `_save_schedule` stores: the active jobs that can be serialised. */
  function ImageOf(order: seq<string>, view: View): Image
    requires forall id | id in order :: id in view
  {
    if order == [] then []
    else (if Stored(view[order[0]]) then [(order[0], ToRecord(view[order[0]]).value)] else []) + ImageOf(order[1..], view)
  }

  lemma {:induction false} ImageSnoc(order: seq<string>, id: string, view: View)
    requires id in view && forall i | i in order :: i in view
    ensures ImageOf(order + [id], view) == ImageOf(order, view) + if Stored(view[id]) then [(id, ToRecord(view[id]).value)] else []
  {
    if order == [] {
      assert [id][1..] == [];
    } else {
      assert (order + [id])[1..] == order[1..] + [id];
      ImageSnoc(order[1..], id, view);
    }
  }

  /** The image holds exactly the active serialisable jobs, each as its own record. */
  lemma {:induction false} ImageIsActive(order: seq<string>, view: View, id: string, r: Record)
    requires Keyed(order, view)
    ensures (id, r) in ImageOf(order, view) <==> id in view && Stored(view[id]) && r == ToRecord(view[id]).value
  {
    ImageMembers(order, view, id, r);
  }

  lemma {:induction false} ImageMembers(order: seq<string>, view: View, id: string, r: Record)
    requires forall i | i in order :: i in view
    ensures (id, r) in ImageOf(order, view) <==> id in order && Stored(view[id]) && r == ToRecord(view[id]).value
  {
    if order != [] {
      ImageMembers(order[1..], view, id, r);
    }
  }

  /** Loading goes through the image in order; a record that cannot be turned into a job is passed over. */
  function Loaded(image: Image, order: seq<string>, view: View, hosts: string -> Host): (seq<string>, View)
    decreases |image|
  {
    if image == [] then (order, view)
    else match FromRecord(image[0].1, hosts(image[0].0))
         case None => Loaded(image[1..], order, view, hosts)
         case Some(s) =>
           Loaded(image[1..], if s.plan.id in view then order else order + [s.plan.id], view[s.plan.id := s], hosts)
  }

  /** An active job that loading brings back unchanged: it has a string target and a creation time. */
  predicate Storable(s: JobState) {
    s.plan.target.Text? && s.plan.id != "" && s.plan.name != "" && s.plan.createdAt != 0.0
  }

  lemma StorableComesBack(s: JobState, host: Host)
    requires Active(s) && Storable(s)
    ensures Stored(s) && FromRecord(ToRecord(s).value, host) == Some(s)
  {
    RoundTripIff(s, host);
  }

  ghost predicate AllStorable(view: View) {
    forall id | id in view && Active(view[id]) :: Storable(view[id])
  }

  function ActiveIds(order: seq<string>, view: View): (r: seq<string>)
    requires forall id | id in order :: id in view
    ensures forall id :: id in r <==> id in order && Active(view[id])
    ensures Distinct(order) ==> Distinct(r)
  {
    if order == [] then []
    else
      var rest := ActiveIds(order[1..], view);
      assert forall id | id in order :: id == order[0] || id in order[1..];
      assert Distinct(order) ==> Distinct(order[1..]) && order[0] !in order[1..];
      if Active(view[order[0]]) then [order[0]] + rest else rest
  }

  /** The active jobs keep their order. */
  lemma {:induction false} ActiveInOrder(order: seq<string>, view: View)
    requires Distinct(order) && forall id | id in order :: id in view
    ensures Subsequence(ActiveIds(order, view), order)
  {
    if order != [] {
      var rest := ActiveIds(order[1..], view);
      assert forall i | 1 <= i < |order| :: order[0] != order[i];
      assert order[0] !in order[1..] && forall id | id in order[1..] :: id in order;
      ActiveInOrder(order[1..], view);
      assert rest != [] ==> rest[0] in rest;
      SubsequenceOneMore(rest, order, Active(view[order[0]]));
    }
  }

  function ActiveView(view: View): View {
    map id | id in view && Active(view[id]) :: view[id]
  }

  /** The active jobs of the first ids: what has been loaded half-way. */
  function Part(ids: seq<string>, view: View): View
    requires forall id | id in ids :: id in view
  {
    map id | id in ids && Active(view[id]) :: view[id]
  }

  lemma PartSnoc(ids: seq<string>, id: string, view: View)
    requires id in view && forall i | i in ids :: i in view
    ensures Part(ids + [id], view) == if Active(view[id]) then Part(ids, view)[id := view[id]] else Part(ids, view)
  {
    assert forall i :: i in ids + [id] <==> i in ids || i == id;
  }

  /** One record of an active job, loaded under a new id. */
  lemma LoadsOne(id: string, s: JobState, rest: Image, order: seq<string>, view: View, hosts: string -> Host)
    requires Active(s) && Storable(s) && s.plan.id == id && id !in view
    ensures Stored(s) && Loaded([(id, ToRecord(s).value)] + rest, order, view, hosts) == Loaded(rest, order + [id], view[id := s], hosts)
  {
    StorableComesBack(s, hosts(id));
    assert ([(id, ToRecord(s).value)] + rest)[1..] == rest;
  }

  lemma {:induction false} LoadsRest(done: seq<string>, rest: seq<string>, view: View, hosts: string -> Host)
    requires Distinct(done + rest) && forall id | id in done + rest :: id in view && view[id].plan.id == id
    requires AllStorable(view)
    ensures Loaded(ImageOf(rest, view), ActiveIds(done, view), Part(done, view), hosts)
         == (ActiveIds(done + rest, view), Part(done + rest, view))
    decreases |rest|
  {
    if rest == [] {
      assert done + rest == done;
    } else {
      var id := rest[0];
      HeadIsNew(done, rest);
      assert (done + [id]) + rest[1..] == done + rest;
      ActiveIdsSnoc(done, id, view);
      PartSnoc(done, id, view);
      LoadsRest(done + [id], rest[1..], view, hosts);
      if Active(view[id]) {
        LoadsOne(id, view[id], ImageOf(rest[1..], view), ActiveIds(done, view), Part(done, view), hosts);
      } else {
        assert ImageOf(rest, view) == ImageOf(rest[1..], view);
        assert ActiveIds(done, view) + [] == ActiveIds(done, view);
      }
    }
  }

  lemma HeadIsNew(done: seq<string>, rest: seq<string>)
    requires Distinct(done + rest) && rest != []
    ensures rest[0] !in done && rest[0] in done + rest
  {
    assert (done + rest)[|done|] == rest[0];
    forall i | 0 <= i < |done| ensures done[i] != rest[0] {
      assert (done + rest)[i] == done[i];
    }
  }

  lemma {:induction false} ActiveIdsSnoc(ids: seq<string>, id: string, view: View)
    requires id in view && forall i | i in ids :: i in view
    ensures ActiveIds(ids + [id], view) == ActiveIds(ids, view) + if Active(view[id]) then [id] else []
  {
    if ids == [] {
      assert [id][1..] == [];
    } else {
      assert (ids + [id])[1..] == ids[1..] + [id];
      ActiveIdsSnoc(ids[1..], id, view);
    }
  }

  lemma PartOfAll(order: seq<string>, view: View)
    requires Keyed(order, view)
    ensures Part(order, view) == ActiveView(view)
  {
  }

  lemma PartOfNone(view: View)
    ensures Part([], view) == map[]
  {
  }

  /** Loading the stored image into an empty scheduler restores the active jobs, field for field and in order. */
  lemma LoadRestoresActive(order: seq<string>, view: View, hosts: string -> Host)
    requires Keyed(order, view) && AllStorable(view)
    ensures Loaded(ImageOf(order, view), [], map[], hosts) == (ActiveIds(order, view), ActiveView(view))
  {
    assert [] + order == order;
    LoadsRest([], order, view, hosts);
    PartOfNone(view);
    PartOfAll(order, view);
  }

  /** Reloading over the jobs the image was taken from changes nothing. */
  lemma {:induction false} ReloadChangesNothing(ids: seq<string>, order: seq<string>, view: View, hosts: string -> Host)
    requires Keyed(order, view) && AllStorable(view) && forall id | id in ids :: id in view
    ensures Loaded(ImageOf(ids, view), order, view, hosts) == (order, view)
    decreases |ids|
  {
    if ids != [] {
      var id := ids[0];
      if Active(view[id]) {
        StorableComesBack(view[id], hosts(id));
        assert view[id := view[id]] == view;
        assert ImageOf(ids, view)[1..] == ImageOf(ids[1..], view);
      } else {
        assert ImageOf(ids, view) == ImageOf(ids[1..], view);
      }
      ReloadChangesNothing(ids[1..], order, view, hosts);
    }
  }

  // ---------------------------------------------------------------- triggers and the image

  /** The image stored after triggering job `id`: a trigger that raises leaves the old one. */
  function ImageAfterTrigger(order: seq<string>, view: View, id: string, ran: Time, now: Time, cron: CronSearch): Image
    requires id in view && forall i | i in order :: i in view
  {
    var (after, raised) := Triggered(view[id], ran, now, cron);
    if raised then ImageOf(order, view) else ImageOf(order, view[id := after])
  }

  /** Once this run is counted, the next one comes from a cron search that raises at `now`. */
  predicate NextSearchRaises(s: JobState, now: Time, cron: CronSearch) {
    && !s.cancelled
    && (s.plan.maxRuns.Some? ==> s.runCount + 1 < s.plan.maxRuns.value)
    && (s.plan.delay.Some? ==> s.runCount != -1)
    && s.plan.cron.Some? && cron(s.plan.cron.value, now).None?
  }

  /**
   After a trigger the image agrees with the jobs, except exactly when the job, neither cancelled nor
   at its last run, has a cron expression whose search raises.
   */
  lemma TriggerKeepsImageIff(order: seq<string>, view: View, id: string, ran: Time, now: Time, cron: CronSearch)
    requires Keyed(order, view) && id in view && Stored(view[id])
    ensures var (after, raised) := Triggered(view[id], ran, now, cron);
      ImageAfterTrigger(order, view, id, ran, now, cron) == ImageOf(order, view[id := after]) <==>
        !NextSearchRaises(view[id], now, cron)
  {
    var (after, raised) := Triggered(view[id], ran, now, cron);
    if raised {
      var stale, recent := ToRecord(view[id]).value, ToRecord(after).value;
      ImageMembers(order, view, id, stale);
      ImageMembers(order, view[id := after], id, stale);
      assert stale.runCount != recent.runCount;
    }
  }

  /** A job due once after a delay, then by a cron expression that is no cron expression. */
  const DelayedHourly: Request :=
    Request(Text("report"), [], map[], Some("job"), None, 20, 0, None, None, Some(5.0), Some("hourly"), None, None, 0, None, None)

  /**
   The delay lets such a job be made, stored and triggered; counting that first run raises, and the
   stored record says it never ran.
   */
  lemma MalformedCronLeavesStaleImage(host: Host, ran: Time, now: Time)
    requires forall t :: host.cron("hourly", t).None?
    ensures Constructed(DelayedHourly, host).Some?
    ensures var s := Constructed(DelayedHourly, host).value;
      var after := Counted(s, ran);
      && Sane(s) && Stored(s) && Triggered(s, ran, now, host.cron) == (after, true)
      && ImageAfterTrigger(["job"], map["job" := s], "job", ran, now, host.cron) == [("job", ToRecord(s).value)]
      && ImageOf(["job"], map["job" := after]) == [("job", ToRecord(after).value)]
      && ToRecord(s).value.runCount == 0 && ToRecord(after).value.runCount == 1
  {
    var s := Constructed(DelayedHourly, host).value;
    ImageOfOne("job", s);
    ImageOfOne("job", Counted(s, ran));
    assert map["job" := s]["job" := Counted(s, ran)] == map["job" := Counted(s, ran)];
  }

  lemma ImageOfOne(id: string, s: JobState)
    requires Stored(s)
    ensures ImageOf([id], map[id := s]) == [(id, ToRecord(s).value)]
  {
    assert [id][1..] == [];
  }
}
