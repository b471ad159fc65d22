/** The resumable backfill: a generation-checked checkpoint shared by any number of runs, each of which
    loads it, fetches a page, ingests the page's responses one by one, and advances. */
module BackfillCheckpoints {
  import opened Wrappers

  type Cursor = string
  type Response = nat
  type RunId = nat

  datatype Page = Page(responses: seq<Response>, next: Option<Cursor>)

  /** The source, a fixed function of cursor and page size, with the two page sizes in use. */
  datatype Feed = Feed(page: (Option<Cursor>, nat) -> Page, validationSize: nat, batchSize: nat)

  datatype Phase = Validation | Batch | Completed {
    function Rank(): nat {
      match this
      case Validation => 0
      case Batch => 1
      case Completed => 2
    }
  }

  datatype Checkpoint = Checkpoint(
    cursor: Option<Cursor>, phase: Phase, completed: bool, pages: nat, responses: nat, updatedAt: real, generation: nat)

  datatype Conflict =
    | GenerationChanged | CannotReopen | PhaseRegressed | PagesMustAdvance | ResponsesRegressed | TimeRegressed

  datatype Action = Accepted | RetryLater | Quarantine

  // ---- The chain of pages ----

  /** Where the chain stands after some pages. */
  datatype Spot = At(cursor: Option<Cursor>) | End

  function PageFrom(f: Feed, phase: Phase, cursor: Option<Cursor>): Page {
    f.page(cursor, if phase == Validation then f.validationSize else f.batchSize)
  }

  function PhaseOfPage(n: nat): Phase {
    if n == 0 then Validation else Batch
  }

  function SpotAfter(f: Feed, n: nat): Spot {
    if n == 0 then At(None) else
      match SpotAfter(f, n - 1)
      case End => End
      case At(c) =>
        var p := PageFrom(f, PhaseOfPage(n - 1), c);
        if p.next.None? then End else At(p.next)
  }

  /** The responses of the first n pages, in order. */
  function ResponsesOf(f: Feed, n: nat): seq<Response> {
    if n == 0 then [] else
      match SpotAfter(f, n - 1)
      case End => ResponsesOf(f, n - 1)
      case At(c) => ResponsesOf(f, n - 1) + PageFrom(f, PhaseOfPage(n - 1), c).responses
  }

  /** The checkpoint is an exact account of the first `generation` pages. */
  predicate Describes(f: Feed, ck: Checkpoint) {
    var n := ck.generation;
    var spot := SpotAfter(f, n);
    && (n > 0 ==> SpotAfter(f, n - 1).At?)
    && ck.pages == n
    && ck.responses == |ResponsesOf(f, n)|
    && ck.completed == spot.End?
    && ck.cursor == (if spot.End? then None else spot.cursor)
    && ck.phase == (if n == 0 then Validation else if spot.End? then Completed else Batch)
  }

  /** Every response of the first n pages has been ingested. */
  ghost predicate Covered(f: Feed, n: nat, ingested: set<Response>) {
    forall r :: r in ResponsesOf(f, n) ==> r in ingested
  }

  function Initial(now: real): Checkpoint {
    Checkpoint(None, Validation, false, 0, 0, now, 0)
  }

  /** The checkpoint a run asks for after ingesting a page. */
  function Desired(ck: Checkpoint, page: Page, accepted: nat, now: real): Checkpoint {
    var completed := page.next.None?;
    ck.(cursor := page.next,
        phase := if completed then Completed else if ck.phase == Validation then Batch else ck.phase,
        completed := completed, pages := ck.pages + 1, responses := ck.responses + accepted, updatedAt := now)
  }

  /** The in-memory store's checks, in its order. */
  function MemoryConflict(current: Option<Checkpoint>, desired: Checkpoint, expected: nat): Option<Conflict> {
    var actual := if current.None? then 0 else current.value.generation;
    if actual != expected then Some(GenerationChanged)
    else if current.None? then None
    else if current.value.completed then Some(CannotReopen)
    else if desired.phase.Rank() < current.value.phase.Rank() then Some(PhaseRegressed)
    else if desired.pages <= current.value.pages then Some(PagesMustAdvance)
    else if desired.responses < current.value.responses then Some(ResponsesRegressed)
    else if desired.updatedAt < current.value.updatedAt then Some(TimeRegressed)
    else None
  }

  /** The database store: insert if absent for generation 0, otherwise update where the generation matches. */
  predicate CasAccepts(current: Option<Checkpoint>, expected: nat) {
    if expected == 0 then current.None? else current.Some? && current.value.generation == expected
  }

  // ---- Facts about the chain ----

  /** A generation fixes the whole checkpoint, except for its time. */
  lemma GenerationDeterminesCheckpoint(f: Feed, a: Checkpoint, b: Checkpoint)
    requires Describes(f, a) && Describes(f, b) && a.generation == b.generation
    ensures a.(updatedAt := b.updatedAt) == b
  {
  }

  lemma AdvanceStaysExact(f: Feed, ck: Checkpoint, now: real)
    requires Describes(f, ck) && !ck.completed
    ensures var page := PageFrom(f, ck.phase, ck.cursor);
            && Describes(f, Desired(ck, page, |page.responses|, now).(generation := ck.generation + 1))
            && ResponsesOf(f, ck.generation + 1) == ResponsesOf(f, ck.generation) + page.responses
  {
    assert SpotAfter(f, ck.generation) == At(ck.cursor);
  }

  /** The chain in the source's own terms: the first page is the small one asked for without a cursor, every
      further one a batch asked for with the cursor before, up to a page without a next cursor. */
  lemma ChainInColumns(f: Feed, n: nat)
    ensures var first := f.page(None, f.validationSize);
            && SpotAfter(f, 1) == (if first.next.None? then End else At(first.next))
            && ResponsesOf(f, 1) == first.responses
    ensures n > 0 && SpotAfter(f, n).At? ==>
              var page := f.page(SpotAfter(f, n).cursor, f.batchSize);
              && SpotAfter(f, n + 1) == (if page.next.None? then End else At(page.next))
              && ResponsesOf(f, n + 1) == ResponsesOf(f, n) + page.responses
    ensures SpotAfter(f, n).End? ==> SpotAfter(f, n + 1).End? && ResponsesOf(f, n + 1) == ResponsesOf(f, n)
  {
    assert SpotAfter(f, 0) == At(None) && ResponsesOf(f, 0) == [];
  }

  /** Racing runs over one chain: with a clock that does not go back, the in-memory store refuses an
      advance exactly when the generation check alone does. */
  lemma StoresAgree(f: Feed, current: Option<Checkpoint>, ck: Checkpoint, now: real)
    requires Describes(f, ck) && !ck.completed
    requires current.Some? ==>
               current.value.generation > 0 && Describes(f, current.value) && current.value.updatedAt <= now
    ensures var page := PageFrom(f, ck.phase, ck.cursor);
            MemoryConflict(current, Desired(ck, page, |page.responses|, now), ck.generation).None?
            <==> CasAccepts(current, ck.generation)
  {
    if current.Some? && current.value.generation == ck.generation {
      GenerationDeterminesCheckpoint(f, ck, current.value);
    }
  }

  /** Without the clock assumption the in-memory store is stricter, and only by its time check. */
  lemma StoresDifferOnlyByTime(f: Feed, current: Option<Checkpoint>, ck: Checkpoint, now: real)
    requires Describes(f, ck) && !ck.completed
    requires current.Some? ==> current.value.generation > 0 && Describes(f, current.value)
    ensures var page := PageFrom(f, ck.phase, ck.cursor);
            var refused := MemoryConflict(current, Desired(ck, page, |page.responses|, now), ck.generation);
            CasAccepts(current, ck.generation) ==>
              (refused.None? <==> current.None? || now >= current.value.updatedAt) &&
              (refused.Some? ==> refused.value == TimeRegressed)
  {
    if current.Some? && current.value.generation == ck.generation {
      GenerationDeterminesCheckpoint(f, ck, current.value);
    }
  }

  // ---- The two stores as the source writes them ----

  datatype AdvanceResult = Advanced(checkpoint: Checkpoint) | Refused(conflict: Conflict)

  class InMemoryCheckpointStore {
    var items: map<string, Checkpoint>

    function Load(key: string): Option<Checkpoint>
      reads this
    {
      if key in items then Some(items[key]) else None
    }

    method Advance(key: string, desired: Checkpoint, expected: nat) returns (r: AdvanceResult)
      modifies this
      ensures r.Refused? <==> MemoryConflict(old(Load(key)), desired, expected).Some?
      ensures r.Advanced? <==>
              if key !in old(items) then expected == 0
              else
                var c := old(items)[key];
                && c.generation == expected && !c.completed && c.pages < desired.pages
                && c.responses <= desired.responses && c.updatedAt <= desired.updatedAt
                && (c.phase == Batch ==> desired.phase != Validation)
                && (c.phase == Completed ==> desired.phase == Completed)
      ensures r.Refused? ==>
              items == old(items) && Some(r.conflict) == MemoryConflict(old(Load(key)), desired, expected)
      ensures r.Advanced? ==>
              r.checkpoint == desired.(generation := expected + 1) && items == old(items)[key := r.checkpoint]
    {
      var actual := if key in items then items[key].generation else 0;
      if actual != expected {
        return Refused(GenerationChanged);
      }
      if key in items {
        var current := items[key];
        if current.completed {
          return Refused(CannotReopen);
        }
        if desired.phase.Rank() < current.phase.Rank() {
          return Refused(PhaseRegressed);
        }
        if desired.pages <= current.pages {
          return Refused(PagesMustAdvance);
        }
        if desired.responses < current.responses {
          return Refused(ResponsesRegressed);
        }
        if desired.updatedAt < current.updatedAt {
          return Refused(TimeRegressed);
        }
      }
      var advanced := desired.(generation := expected + 1);
      items := items[key := advanced];
      r := Advanced(advanced);
    }
  }

  class PostgresCheckpointStore {
    var rows: map<string, Checkpoint>

    function Load(key: string): Option<Checkpoint>
      reads this
    {
      if key in rows then Some(rows[key]) else None
    }

    method Advance(key: string, desired: Checkpoint, expected: nat) returns (r: AdvanceResult)
      modifies this
      ensures r.Advanced? <==> CasAccepts(old(Load(key)), expected)
      ensures r.Refused? ==> rows == old(rows) && r.conflict == GenerationChanged
      ensures r.Advanced? ==>
              r.checkpoint == desired.(generation := expected + 1) && rows == old(rows)[key := r.checkpoint]
    {
      var row := desired.(generation := expected + 1);
      if expected == 0 {
        if key in rows {
          return Refused(GenerationChanged);
        }
      } else if key !in rows || rows[key].generation != expected {
        return Refused(GenerationChanged);
      }
      rows := rows[key := row];
      r := Advanced(row);
    }
  }

  // ---- Racing, failing and interrupted runs ----

  /** One run in progress: the checkpoint it works from, the page it holds, how much of it is ingested. */
  datatype Local = Local(checkpoint: Checkpoint, page: Option<Page>, accepted: nat)

  ghost predicate StoredOk(f: Feed, stored: Option<Checkpoint>, ingested: set<Response>) {
    stored.Some? ==>
      && stored.value.generation > 0 && Describes(f, stored.value)
      && Covered(f, stored.value.generation, ingested)
  }

  ghost predicate LocalOk(f: Feed, l: Local, ingested: set<Response>) {
    && Describes(f, l.checkpoint) && !l.checkpoint.completed
    && Covered(f, l.checkpoint.generation, ingested)
    && (l.page.Some? ==>
          && l.page.value == PageFrom(f, l.checkpoint.phase, l.checkpoint.cursor)
          && l.accepted <= |l.page.value.responses|
          && forall i :: 0 <= i < l.accepted ==> l.page.value.responses[i] in ingested)
  }

  /** What one process may do next; `at` is what its own clock shows, which need not agree with any
      other clock. A command that does not apply to its run is no step at all. */
  datatype Command =
    | Begin(id: RunId, at: real)
    | Fetch(id: RunId)
    | Ingest(id: RunId, action: Action)
    | Advance(id: RunId, at: real)
    | Stop(id: RunId)

  /** One page of a run: the outside world's answers, the run's clock when it advances, and what other
      runs do before the fetch, before each response and before the advance. */
  datatype PageTurn = PageTurn(fetched: bool, actions: seq<Action>, at: real, beforeFetch: seq<Command>,
                               beforeResponse: nat -> seq<Command>, beforeAdvance: seq<Command>)

  datatype RunResult =
    | Returned(checkpoint: Checkpoint)
    | FetchFailed
    | IngestRefused(action: Action)
    | Conflicted(conflict: Conflict)
    | Interrupted

  predicate OfOthers(id: RunId, commands: seq<Command>) {
    forall i :: 0 <= i < |commands| ==> commands[i].id != id
  }

  ghost predicate LegalTurn(id: RunId, t: PageTurn) {
    OfOthers(id, t.beforeFetch) && OfOthers(id, t.beforeAdvance) && forall i: nat :: OfOthers(id, t.beforeResponse(i))
  }

  /** Nothing goes wrong and nobody else acts while this page is done. */
  ghost predicate Smooth(t: PageTurn, page: Page) {
    && t.fetched && t.beforeFetch == [] && t.beforeAdvance == [] && (forall i: nat :: t.beforeResponse(i) == [])
    && |page.responses| <= |t.actions|
    && forall i :: 0 <= i < |page.responses| ==> t.actions[i] == Accepted
  }

  /** Whether a store takes the next checkpoint of a run that is still current. */
  predicate InTime(durable: bool, stored: Option<Checkpoint>, at: real) {
    durable || stored.None? || at >= stored.value.updatedAt
  }

  /** The store only moves along the chain, never back, and a completed checkpoint is final. */
  predicate Progress(before: Option<Checkpoint>, after: Option<Checkpoint>) {
    && (before.Some? ==> after.Some? && before.value.generation <= after.value.generation)
    && (before.Some? && before.value.completed ==> after == before)
  }

  predicate NotAhead(checkpoint: Checkpoint, stored: Option<Checkpoint>) {
    checkpoint.generation == 0 || (stored.Some? && checkpoint.generation <= stored.value.generation)
  }

  /** Any number of runs of one scope over one store, either of the two. */
  class BackfillWorld {
    const feed: Feed
    const key: string
    const durable: bool
    const memory: InMemoryCheckpointStore
    const database: PostgresCheckpointStore
    var ingested: set<Response>
    var runs: map<RunId, Local>

    function Stored(): Option<Checkpoint>
      reads memory, database
    {
      if durable then database.Load(key) else memory.Load(key)
    }

    ghost predicate Valid()
      reads this, memory, database
    {
      && StoredOk(feed, Stored(), ingested)
      && forall id :: id in runs ==> LocalOk(feed, runs[id], ingested)
    }

    constructor (feed: Feed, key: string, durable: bool, memory: InMemoryCheckpointStore,
                 database: PostgresCheckpointStore)
      requires if durable then database.Load(key).None? else memory.Load(key).None?
      ensures Valid() && Stored().None? && runs == map[] && this.feed == feed && this.durable == durable
      ensures this.key == key && this.memory == memory && this.database == database
    {
      this.feed, this.key, this.durable := feed, key, durable;
      this.memory, this.database := memory, database;
      ingested, runs := {}, map[];
    }

    method BeginRun(id: RunId, at: real) returns (active: bool)
      requires Valid()
      modifies this`runs
      ensures Valid()
      ensures active <==> Stored().None? || !Stored().value.completed
      ensures runs ==
              if active then old(runs)[id := Local(if Stored().Some? then Stored().value else Initial(at), None, 0)]
              else old(runs)
    {
      var checkpoint := if Stored().Some? then Stored().value else Initial(at);
      active := !checkpoint.completed;
      if active {
        runs := runs[id := Local(checkpoint, None, 0)];
      }
    }

    method FetchPage(id: RunId)
      requires Valid() && id in runs
      modifies this`runs
      ensures Valid()
      ensures var l := old(runs[id]);
              var page := PageFrom(feed, l.checkpoint.phase, l.checkpoint.cursor);
              runs == old(runs)[id := l.(page := Some(page), accepted := 0)]
    {
      var l := runs[id];
      runs := runs[id := l.(page := Some(PageFrom(feed, l.checkpoint.phase, l.checkpoint.cursor)), accepted := 0)];
    }

    /** Ingest the next response of the page; a response the sink does not accept ends the run. */
    method IngestNext(id: RunId, action: Action)
      requires Valid() && id in runs && runs[id].page.Some? && runs[id].accepted < |runs[id].page.value.responses|
      modifies this`runs, this`ingested
      ensures Valid() && old(ingested) <= ingested
      ensures action == Accepted ==>
                && runs == old(runs)[id := old(runs[id]).(accepted := old(runs[id]).accepted + 1)]
                && ingested == old(ingested) + {old(runs[id].page.value.responses[runs[id].accepted])}
      ensures action != Accepted ==> runs == old(runs) - {id} && ingested == old(ingested)
    {
      var l := runs[id];
      if action == Accepted {
        ingested := ingested + {l.page.value.responses[l.accepted]};
        runs := runs[id := l.(accepted := l.accepted + 1)];
      } else {
        runs := runs - {id};
      }
    }

    /** Advance at whatever time this process's clock shows. The database takes the checkpoint exactly
        when its generation is still the run's; the in-memory store keeps the same account and refuses
        more only when that clock is behind the stored time. */
    method AdvanceRun(id: RunId, at: real) returns (r: AdvanceResult)
      requires Valid() && id in runs && runs[id].page.Some? && runs[id].accepted == |runs[id].page.value.responses|
      modifies this`runs, memory, database
      ensures Valid() && Progress(old(Stored()), Stored())
      ensures r.Advanced? <==>
              CasAccepts(old(Stored()), old(runs[id]).checkpoint.generation) && InTime(durable, old(Stored()), at)
      ensures r.Advanced? ==>
                && Stored() == Some(r.checkpoint) && r.checkpoint.updatedAt == at
                && r.checkpoint.generation == old(runs[id]).checkpoint.generation + 1
                && runs ==
                   if r.checkpoint.completed then old(runs) - {id}
                   else old(runs)[id := Local(r.checkpoint, None, 0)]
      ensures r.Refused? ==>
                && Stored() == old(Stored()) && runs == old(runs) - {id}
                && (CasAccepts(old(Stored()), old(runs[id]).checkpoint.generation) ==> r.conflict == TimeRegressed)
    {
      var l := runs[id];
      var desired := Desired(l.checkpoint, l.page.value, l.accepted, at);
      ghost var before := Stored();
      AdvanceStaysExact(feed, l.checkpoint, at);
      StoresDifferOnlyByTime(feed, before, l.checkpoint, at);
      AcceptedKeepsProgress(feed, before, l.checkpoint);
      hide Describes, Desired, PageFrom, ResponsesOf;
      if durable {
        r := database.Advance(key, desired, l.checkpoint.generation);
      } else {
        r := memory.Advance(key, desired, l.checkpoint.generation);
        RefusedByBoth(before, desired, l.checkpoint.generation);
      }
      if r.Refused? {
        runs := runs - {id};
      } else {
        runs := if r.checkpoint.completed then runs - {id} else runs[id := Local(r.checkpoint, None, 0)];
      }
    }

    /** A crash, a deadline, a failed fetch: the run disappears, whatever it was doing. */
    method StopRun(id: RunId)
      requires Valid()
      modifies this`runs
      ensures Valid() && runs == old(runs) - {id}
    {
      runs := runs - {id};
    }

    method Do(c: Command)
      requires Valid()
      modifies this, memory, database
      ensures Valid() && Progress(old(Stored()), Stored()) && old(ingested) <= ingested
      ensures forall id :: c.id != id ==>
              (id in runs <==> id in old(runs)) && (id in runs ==> runs[id] == old(runs)[id])
    {
      hide StoredOk, LocalOk, InTime, CasAccepts, PageFrom, Initial;
      match c {
        case Begin(id, at) => var _ := BeginRun(id, at);
        case Fetch(id) =>
          if id in runs {
            FetchPage(id);
          }
        case Ingest(id, action) =>
          if id in runs && runs[id].page.Some? && runs[id].accepted < |runs[id].page.value.responses| {
            IngestNext(id, action);
          }
        case Advance(id, at) =>
          if id in runs && runs[id].page.Some? && runs[id].accepted == |runs[id].page.value.responses| {
            var _ := AdvanceRun(id, at);
          }
        case Stop(id) => StopRun(id);
      }
    }

    method Interfere(id: RunId, others: seq<Command>)
      requires Valid() && OfOthers(id, others)
      modifies this, memory, database
      ensures Valid() && Progress(old(Stored()), Stored()) && old(ingested) <= ingested
      ensures (id in runs <==> id in old(runs)) && (id in runs ==> runs[id] == old(runs)[id])
      ensures others == [] ==> Stored() == old(Stored())
    {
      hide StoredOk, LocalOk;
      for i := 0 to |others|
        invariant Valid() && Progress(old(Stored()), Stored()) && old(ingested) <= ingested
        invariant (id in runs <==> id in old(runs)) && (id in runs ==> runs[id] == old(runs)[id])
        invariant i == 0 ==> Stored() == old(Stored())
      {
        Do(others[i]);
      }
    }

    /** One page of a run: fetch, ingest every response, advance, with other runs active throughout. */
    method RunPage(id: RunId, t: PageTurn) returns (stopped: Option<RunResult>)
      requires Valid() && id in runs && LegalTurn(id, t)
      modifies this, memory, database
      ensures Valid() && Progress(old(Stored()), Stored()) && old(ingested) <= ingested
      ensures stopped.None? ==>
                && id in runs && Stored() == Some(runs[id].checkpoint)
                && runs[id].checkpoint.generation == old(runs[id]).checkpoint.generation + 1
                && runs[id].checkpoint.updatedAt == t.at
      ensures stopped.Some? ==> id !in runs
      ensures stopped.Some? && stopped.value.Returned? ==>
                && Stored() == Some(stopped.value.checkpoint) && stopped.value.checkpoint.completed
                && stopped.value.checkpoint.generation == old(runs[id]).checkpoint.generation + 1
      ensures Smooth(t, PageFrom(feed, old(runs[id]).checkpoint.phase, old(runs[id]).checkpoint.cursor)) &&
              CasAccepts(old(Stored()), old(runs[id]).checkpoint.generation) && InTime(durable, old(Stored()), t.at) ==>
                stopped.None? || stopped.value.Returned?
    {
      hide StoredOk, LocalOk, CasAccepts, InTime, PageFrom, OfOthers;
      ghost var smooth := Smooth(t, PageFrom(feed, runs[id].checkpoint.phase, runs[id].checkpoint.cursor));
      Interfere(id, t.beforeFetch);
      if !t.fetched {
        StopRun(id);
        return Some(FetchFailed);
      }
      FetchPage(id);
      ghost var checkpoint := runs[id].checkpoint;
      var page := runs[id].page.value;
      for i := 0 to |page.responses|
        invariant Valid() && id in runs && runs[id] == Local(checkpoint, Some(page), i)
        invariant Progress(old(Stored()), Stored()) && old(ingested) <= ingested
        invariant smooth ==> Stored() == old(Stored())
      {
        Interfere(id, t.beforeResponse(i));
        if i >= |t.actions| {
          StopRun(id);
          return Some(Interrupted);
        }
        IngestNext(id, t.actions[i]);
        if t.actions[i] != Accepted {
          return Some(IngestRefused(t.actions[i]));
        }
      }
      Interfere(id, t.beforeAdvance);
      var r := AdvanceRun(id, t.at);
      if r.Refused? {
        return Some(Conflicted(r.conflict));
      }
      stopped := if r.checkpoint.completed then Some(Returned(r.checkpoint)) else None;
    }

    /** A leased run: resume from the stored checkpoint, then page after page until it completes, stops
        or has done `maxPages`; running out of turns is an interruption. If nothing disturbs it and the
        chain ends within those pages, it completes. */
    method RunLeased(id: RunId, at: real, maxPages: Option<nat>, turns: seq<PageTurn>) returns (r: RunResult)
      requires Valid() && id !in runs && forall k :: 0 <= k < |turns| ==> LegalTurn(id, turns[k])
      modifies this, memory, database
      ensures Valid() && Progress(old(Stored()), Stored()) && old(ingested) <= ingested
      ensures r.Returned? ==>
                && Describes(feed, r.checkpoint)
                && Covered(feed, r.checkpoint.generation, ingested)
                && NotAhead(r.checkpoint, Stored())
                && (r.checkpoint.completed ==> Stored() == Some(r.checkpoint))
                && (r.checkpoint.completed || maxPages.Some?)
      ensures Undisturbed(feed, durable, old(Stored()), turns) &&
              SpotAfter(feed, GenerationOf(old(Stored())) + Turns(turns, maxPages)).End? ==>
                r.Returned? && r.checkpoint.completed
    {
      hide LegalTurn, StoredOk, LocalOk, Describes, Covered, Undisturbed, Smooth, InTime, SpotAfter, PageFrom, AtPage,
           CasAccepts, Initial, Progress, NotAhead;
      ghost var before := Stored();
      var active := BeginRun(id, at);
      StoredIsExact(feed, before, ingested);
      NoProgress(before);
      if !active {
        return Returned(Stored().value);
      }
      FirstPage(before, turns, at);
      var pages := 0;
      while maxPages.None? || pages < maxPages.value
        invariant Valid() && id in runs && Progress(old(Stored()), Stored()) && old(ingested) <= ingested
        invariant NotAhead(runs[id].checkpoint, Stored())
        invariant pages <= Turns(turns, maxPages)
        invariant AtPage(before, turns, pages, Stored(), runs[id].checkpoint)
        invariant runs[id].checkpoint.generation == GenerationOf(before) + pages
        decreases |turns| - pages
      {
        LocalIsExact(feed, runs[id], ingested);
        if pages >= |turns| {
          StopRun(id);
          return Interrupted;
        }
        ghost var checkpoint, stored := runs[id].checkpoint, Stored();
        NextTurnIsSmooth(feed, durable, before, turns, pages, Stored(), checkpoint);
        var stopped := RunPage(id, turns[pages]);
        MoreProgress(before, stored, Stored());
        if stopped.Some? {
          StoredIsExact(feed, Stored(), ingested);
          return stopped.value;
        }
        NextPage(before, turns, pages, checkpoint, runs[id].checkpoint);
        pages := pages + 1;
      }
      LocalIsExact(feed, runs[id], ingested);
      r := Returned(runs[id].checkpoint);
      StopRun(id);
    }
  }

  // ---- A run that nothing disturbs ----

  function GenerationOf(stored: Option<Checkpoint>): nat {
    if stored.None? then 0 else stored.value.generation
  }

  /** How many pages the run may do. */
  function Turns(turns: seq<PageTurn>, maxPages: Option<nat>): nat {
    if maxPages.Some? && maxPages.value < |turns| then maxPages.value else |turns|
  }

  /** The page that generation n works on. */
  function PageAfter(f: Feed, n: nat): Page
    requires SpotAfter(f, n).At?
  {
    PageFrom(f, PhaseOfPage(n), SpotAfter(f, n).cursor)
  }

  /** No page of the run goes wrong, and the in-memory store never sees its clock go back. */
  ghost predicate Undisturbed(f: Feed, durable: bool, stored: Option<Checkpoint>, turns: seq<PageTurn>) {
    && (forall k :: 0 <= k < |turns| && SpotAfter(f, GenerationOf(stored) + k).At? ==>
          Smooth(turns[k], PageAfter(f, GenerationOf(stored) + k)))
    && (durable ||
        ((stored.Some? && turns != [] ==> stored.value.updatedAt <= turns[0].at) &&
         forall k :: 0 < k < |turns| ==> turns[k - 1].at <= turns[k].at))
  }

  /** Before page number `pages` of the run, the store has what the run has. */
  ghost predicate AtPage(before: Option<Checkpoint>, turns: seq<PageTurn>, pages: nat, stored: Option<Checkpoint>,
                         ck: Checkpoint)
    requires pages <= |turns|
  {
    && CasAccepts(stored, ck.generation) && ck.generation == GenerationOf(before) + pages
    && if pages == 0 then stored == before else stored.Some? && stored.value.updatedAt == turns[pages - 1].at
  }

  lemma FirstPage(before: Option<Checkpoint>, turns: seq<PageTurn>, at: real)
    requires before.Some? ==> before.value.generation > 0
    ensures var ck := if before.Some? then before.value else Initial(at);
            AtPage(before, turns, 0, before, ck) && NotAhead(ck, before) && ck.generation == GenerationOf(before)
  {
  }

  lemma NoProgress(stored: Option<Checkpoint>)
    ensures Progress(stored, stored) && (stored.Some? ==> NotAhead(stored.value, stored))
  {
  }

  lemma MoreProgress(a: Option<Checkpoint>, b: Option<Checkpoint>, c: Option<Checkpoint>)
    requires Progress(a, b) && Progress(b, c)
    ensures Progress(a, c) && (c.Some? ==> NotAhead(c.value, c))
  {
  }

  lemma NextPage(before: Option<Checkpoint>, turns: seq<PageTurn>, pages: nat, ck: Checkpoint, next: Checkpoint)
    requires pages < |turns| && ck.generation == GenerationOf(before) + pages
    requires next.generation == ck.generation + 1 && next.updatedAt == turns[pages].at
    ensures AtPage(before, turns, pages + 1, Some(next), next)
  {
  }

  lemma NextTurnIsSmooth(f: Feed, durable: bool, before: Option<Checkpoint>, turns: seq<PageTurn>, pages: nat,
                         stored: Option<Checkpoint>, ck: Checkpoint)
    requires pages < |turns| && AtPage(before, turns, pages, stored, ck) && Describes(f, ck) && !ck.completed
    ensures Undisturbed(f, durable, before, turns) ==>
              && Smooth(turns[pages], PageFrom(f, ck.phase, ck.cursor)) && CasAccepts(stored, ck.generation)
              && InTime(durable, stored, turns[pages].at)
  {
    assert SpotAfter(f, ck.generation) == At(ck.cursor);
  }

  lemma LocalIsExact(f: Feed, l: Local, ingested: set<Response>)
    requires LocalOk(f, l, ingested)
    ensures Describes(f, l.checkpoint) && !l.checkpoint.completed && Covered(f, l.checkpoint.generation, ingested)
    ensures SpotAfter(f, l.checkpoint.generation).At?
  {
  }

  lemma StoredIsExact(f: Feed, stored: Option<Checkpoint>, ingested: set<Response>)
    requires StoredOk(f, stored, ingested)
    ensures stored.Some? ==>
              && stored.value.generation > 0 && Describes(f, stored.value)
              && Covered(f, stored.value.generation, ingested)
  {
  }

  /** A checkpoint taken at the run's own generation moves the store along the chain. */
  lemma AcceptedKeepsProgress(f: Feed, current: Option<Checkpoint>, ck: Checkpoint)
    requires Describes(f, ck) && !ck.completed
    requires current.Some? ==> current.value.generation > 0 && Describes(f, current.value)
    ensures CasAccepts(current, ck.generation) && current.Some? ==>
            !current.value.completed && current.value.generation == ck.generation
  {
    if current.Some? && current.value.generation == ck.generation {
      GenerationDeterminesCheckpoint(f, ck, current.value);
    }
  }

  /** What the generation check refuses the in-memory store refuses too. */
  lemma RefusedByBoth(current: Option<Checkpoint>, desired: Checkpoint, expected: nat)
    requires current.Some? ==> current.value.generation > 0
    ensures !CasAccepts(current, expected) ==> MemoryConflict(current, desired, expected) == Some(GenerationChanged)
  {
  }
}
