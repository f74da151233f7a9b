/**
 Writing the access document, confirming the write, and undoing it.  One write may be in flight and
 any number of undos; every request to the tenant is a step of its own, and between any two of them
 others may replace the document, other tasks may move, and the program may end.  A PUT may be
 answered or not, and in either case may or may not have taken effect.  Nothing ties a PUT to the
 document its task read: whatever is there is replaced.
 */
module AccessWrite {
  import opened Common
  import opened Json
  import opened Canonical
  import opened AccessDocument

  /** `Stale` is an undo's "conflict" too, and `NotWritten` its "failed". */
  datatype Failure = Stale | NotWritten | AcceptedButUnconfirmed

  type Verdict = Result<(), Failure>

  datatype Status = Pending | AppliedSuccess | AppliedConflict | AppliedFailure | Expired

  /** The checks before a write, on the document just read. */
  ghost function PrepareLiveWrite(hash: Hash, r: Request, live: Value): Result<Value, Failure> {
    if !CheckDigest(hash, Some(r.expectedDigest), live) then Err(Stale)
    else if r.expectedRule.Some? && RulesOf(live).None? then Err(Stale)
    else if r.expectedRule.Some? && r.expectedRule.value.0 >= |RulesOrNone(live)| then Err(Stale)
    else if r.expectedRule.Some? && Digest(hash, RulesOrNone(live)[r.expectedRule.value.0]) != r.expectedRule.value.1 then Err(Stale)
    else
      match Amend(live, r.amendment)
      case Ok(after) => Ok(after)
      case Err(_) => Err(NotWritten)
  }

  /** The status a write's verdict gives its undo entry; None leaves it as it is. */
  function UndoDisposition(v: Verdict): Option<Status> {
    match v
    case Ok(_) => None
    case Err(AcceptedButUnconfirmed) => None
    case Err(_) => Some(AppliedFailure)
  }

  /** And the status an undo's own verdict gives it. */
  function UndoResultDisposition(v: Verdict): Option<Status> {
    match v
    case Ok(_) => Some(AppliedSuccess)
    case Err(Stale) => Some(AppliedConflict)
    case Err(NotWritten) => Some(AppliedFailure)
    case Err(AcceptedButUnconfirmed) => None
  }

  /**
   The checks pass exactly on the reviewed document, and then the write is exactly the reviewed
   result: the per-rule check never refuses what the document check let through.
   */
  lemma PreparedIsReviewed(hash: Hash, r: Request, live: Value)
    requires GoodHash(hash) && WellBuilt(hash, r)
    ensures PrepareLiveWrite(hash, r, live) == if live == r.previous then Ok(r.after) else Err(Stale)
  {
    DigestPreconditionMeansEquality(hash, r.previous, live);
  }

  /****** tasks, entries and the tenant ******/

  type Id = nat

  /** What an attempt met, as the tenant could tell it. */
  datatype Fact =
    | ReadFailed
    | Blocked                                    // the checks, or the backup, stopped it before its PUT
    | PutErrored(stored: bool)
    | PutAnswered(stored: bool, shown: bool)     // shown: the read-back returned the document it had put

  /** `early`: when the attempt read the document, the entry's write had not landed. */
  datatype Report = Report(byUndo: bool, early: bool, fact: Fact)

  /**
   An undo entry: the documents before and after the write, and its status.  The rest is history that
   no file records: what the write replaced, once it landed, and what had been put last between its
   GET and its PUT, if anything; whether the document was another one since, and whether an undo of it
   was stored since; what the attempts whose verdict was marked met.
   */
  datatype Entry = Entry(
    before: Value, after: Value, status: Status,
    replaced: Option<Value>, over: Option<Value>, changed: bool, undone: bool, reports: seq<Report>)

  datatype Phase =
    | Starting
    | Putting(body: Value, read: Value, latest: Option<Value>)
      // the GET passed the checks; `latest` is what was put last since, if anything
    | Confirming(body: Value, stored: bool)      // the PUT was answered
    | Reporting(verdict: Verdict, fact: Fact)    // until the main loop marks the entry

  /** A write carries its request; an undo carries none. */
  datatype Task = Task(id: Id, request: Option<Request>, phase: Phase, early: bool)

  datatype State = State(live: Value, entries: map<Id, Entry>, tasks: map<nat, Task>, inFlight: bool)

  datatype Event =
    | StartWrite(id: Id, task: nat, request: Request)       // records the entry first
    | StartUndo(id: Id, task: nat)
    | Get(task: nat, fails: bool, backupFails: bool)
    | Put(task: nat, answered: bool, stored: bool)
    | ReadBack(task: nat, fails: bool)
    | Mark(task: nat)
    | Expire(id: Id)
    | Quit
    | Foreign(document: Value)

  ghost predicate Enabled(hash: Hash, s: State, e: Event) {
    match e
    case StartWrite(id, task, r) => !s.inFlight && id !in s.entries && task !in s.tasks && WellBuilt(hash, r)
    case StartUndo(id, task) => id in s.entries && s.entries[id].status.Pending? && task !in s.tasks
    case Get(task, _, _) => task in s.tasks && s.tasks[task].id in s.entries && s.tasks[task].phase.Starting?
    case Put(task, _, _) =>
      task in s.tasks && s.tasks[task].id in s.entries && s.tasks[task].phase.Putting?
    case ReadBack(task, _) => task in s.tasks && s.tasks[task].id in s.entries && s.tasks[task].phase.Confirming?
    case Mark(task) => task in s.tasks && s.tasks[task].id in s.entries && s.tasks[task].phase.Reporting?
    case Expire(id) => id in s.entries && s.entries[id].status.Pending?
    case Quit => true
    case Foreign(_) => true
  }

  /** A task is at its next phase, and its entry has its history. */
  function Step(s: State, task: nat, t: Task, x: Entry): State {
    s.(entries := s.entries[t.id := x], tasks := s.tasks[task := t])
  }

  /** A task that has yet to make its PUT, with the document replaced. */
  function Overtaken(t: Task, document: Value): Task {
    if t.phase.Putting? then t.(phase := t.phase.(latest := Some(document))) else t
  }

  /**
   The document is replaced.  Entries whose write landed remember whether it is another one now, and
   tasks between their GET and their PUT what it is.
   */
  function Replaced(s: State, document: Value): State {
    if document == s.live then s
    else
      s.(live := document,
         entries := map id | id in s.entries ::
           if s.entries[id].replaced.Some? then s.entries[id].(changed := true) else s.entries[id],
         tasks := map k | k in s.tasks :: Overtaken(s.tasks[k], document))
  }

  /** The read, the checks on what it returned, and a write's backup; `prepared` is what the checks say. */
  function GetStep(s: State, task: nat, fails: bool, backupFails: bool, prepared: Result<Value, Failure>): State
    requires task in s.tasks && s.tasks[task].id in s.entries
  {
    var t := s.tasks[task];
    var x := s.entries[t.id];
    var phase :=
      if fails then Reporting(Err(NotWritten), ReadFailed)
      else
        match prepared
        case Err(f) => Reporting(Err(f), Blocked)
        case Ok(body) =>
          if t.request.Some? && backupFails then Reporting(Err(NotWritten), Blocked)
          else Putting(body, s.live, None);
    Step(s, task, t.(phase := phase, early := x.replaced.None?), x)
  }

  /** A write's checks, or an undo's: that the document is still what the write left. */
  ghost function Prepared(hash: Hash, s: State, task: nat): Result<Value, Failure>
    requires task in s.tasks && s.tasks[task].id in s.entries
  {
    var t := s.tasks[task];
    var x := s.entries[t.id];
    if t.request.Some? then PrepareLiveWrite(hash, t.request.value, s.live)
    else if s.live == x.after then Ok(x.before)
    else Err(Stale)
  }

  /** What a stored PUT makes of its entry: a write has landed, or a landed write is undone. */
  function Landed(x: Entry, t: Task, live: Value): Entry
    requires t.phase.Putting?
  {
    if t.request.Some? then x.(replaced := Some(live), over := t.phase.latest, changed := false, undone := false)
    else x.(undone := x.undone || x.replaced.Some?)
  }

  function PutStep(s: State, task: nat, answered: bool, stored: bool): State
    requires task in s.tasks && s.tasks[task].id in s.entries && s.tasks[task].phase.Putting?
  {
    var t := s.tasks[task];
    var t' := t.(phase := if answered then Confirming(t.phase.body, stored) else Reporting(Err(NotWritten), PutErrored(stored)));
    if stored then
      var s1 := Replaced(s, t.phase.body);
      Step(s1, task, t', Landed(s1.entries[t.id], t, s.live))
    else Step(s, task, t', s.entries[t.id])
  }

  /** `confirm_document` on one read of the document as it is then. */
  function ReadBackStep(s: State, task: nat, fails: bool): State
    requires task in s.tasks && s.tasks[task].id in s.entries && s.tasks[task].phase.Confirming?
  {
    var t := s.tasks[task];
    var shown := !fails && s.live == t.phase.body;
    Step(s, task,
         t.(phase := Reporting(if shown then Ok(()) else Err(AcceptedButUnconfirmed), PutAnswered(t.phase.stored, shown))),
         s.entries[t.id])
  }

  /** The main loop takes the verdict: the entry gets its status, whatever it has. */
  function MarkStep(s: State, task: nat): State
    requires task in s.tasks && s.tasks[task].id in s.entries && s.tasks[task].phase.Reporting?
  {
    var t := s.tasks[task];
    var x := s.entries[t.id];
    var status := if t.request.Some? then UndoDisposition(t.phase.verdict) else UndoResultDisposition(t.phase.verdict);
    s.(tasks := map k | k in s.tasks && k != task :: s.tasks[k],
       inFlight := s.inFlight && t.request.None?,
       entries := s.entries[t.id :=
         x.(status := if status.Some? then status.value else x.status,
            reports := x.reports + [Report(t.request.None?, t.early, t.phase.fact)])])
  }

  ghost function Apply(hash: Hash, s: State, e: Event): State
    requires Enabled(hash, s, e)
  {
    match e
    case StartWrite(id, task, r) =>
      State(s.live, s.entries[id := Entry(r.previous, r.after, Pending, None, None, false, false, [])],
            s.tasks[task := Task(id, Some(r), Starting, true)], true)
    case StartUndo(id, task) => s.(tasks := s.tasks[task := Task(id, None, Starting, true)])
    case Get(task, fails, backupFails) => GetStep(s, task, fails, backupFails, Prepared(hash, s, task))
    case Put(task, answered, stored) => PutStep(s, task, answered, stored)
    case ReadBack(task, fails) => ReadBackStep(s, task, fails)
    case Mark(task) => MarkStep(s, task)
    case Expire(id) => s.(entries := s.entries[id := s.entries[id].(status := Expired)])
    case Quit => s.(tasks := map[], inFlight := false)
    case Foreign(document) => Replaced(s, document)
  }

  ghost function Run(hash: Hash, s: State, es: seq<Event>): Option<State>
    decreases |es|
  {
    if es == [] then Some(s)
    else if Enabled(hash, s, es[0]) then Run(hash, Apply(hash, s, es[0]), es[1..])
    else None
  }

  function Start(live: Value): State { State(live, map[], map[], false) }

  /****** invariant ******/

  /** What the marked report of an attempt retires, by what the attempt met. */
  predicate Retires(r: Report) {
    if r.byUndo then !r.fact.PutAnswered? || r.fact.shown else !r.fact.PutAnswered?
  }

  /** The status a retiring report leaves. */
  function Retired(r: Report): Status {
    if r.byUndo && r.fact.PutAnswered? then AppliedSuccess
    else if r.byUndo && r.fact.Blocked? then AppliedConflict
    else AppliedFailure
  }

  /** The status the marked reports leave, unless the entry expired: the last that retires it decides. */
  function StatusOf(reports: seq<Report>): Status {
    if reports == [] then Pending
    else
      var n := |reports| - 1;
      if Retires(reports[n]) then Retired(reports[n]) else StatusOf(reports[..n])
  }

  /** The verdict is what the code makes of what was met. */
  predicate Classified(byUndo: bool, v: Verdict, fact: Fact) {
    match fact
    case ReadFailed => v == Err(NotWritten)
    case Blocked => v.Err? && v != Err(AcceptedButUnconfirmed) && (byUndo ==> v == Err(Stale))
    case PutErrored(_) => v == Err(NotWritten)
    case PutAnswered(_, shown) => v == if shown then Ok(()) else Err(AcceptedButUnconfirmed)
  }

  predicate Stores(fact: Fact) { (fact.PutErrored? || fact.PutAnswered?) && fact.stored }

  /** A report is true of its entry's history. */
  predicate ReportOk(x: Entry, r: Report) {
    if !r.byUndo then Stores(r.fact) <==> x.replaced.Some?
    else
      !r.early ==>
        && x.replaced.Some?
        && (r.fact.Blocked? ==> x.changed)
        && (Stores(r.fact) ==> x.undone)
        && (r.fact == PutAnswered(false, true) ==> x.changed || x.before == x.after)
  }

  /** The document there after a read of `read` and what was put last since. */
  function Last(read: Value, latest: Option<Value>): Value {
    if latest.Some? then latest.value else read
  }

  predicate EntryOk(x: Entry, live: Value) {
    && (x.replaced.Some? ==> x.replaced == Some(Last(x.before, x.over)))
    && (x.replaced.Some? && !x.changed ==> live == x.after)
    && (x.status.Pending? ==> forall i | 0 <= i < |x.reports| :: !Retires(x.reports[i]))
    && (!x.status.Pending? ==> x.status.Expired? || exists i | 0 <= i < |x.reports| :: Retires(x.reports[i]))
    && (x.status.Expired? || x.status == StatusOf(x.reports))
    && forall i | 0 <= i < |x.reports| :: ReportOk(x, x.reports[i])
  }

  predicate UndoOk(x: Entry, t: Task) {
    match t.phase
    case Starting => true
    case Putting(body, read, _) => body == x.before && read == x.after && (!t.early ==> x.replaced.Some?)
    case Confirming(body, stored) => body == x.before && (!t.early ==> x.replaced.Some? && (stored ==> x.undone))
    case Reporting(v, fact) => Classified(true, v, fact) && ReportOk(x, Report(true, t.early, fact))
  }

  predicate WriteOk(x: Entry, t: Task)
    requires t.request.Some?
  {
    && x.before == t.request.value.previous && x.after == t.request.value.after
    && (forall i | 0 <= i < |x.reports| :: x.reports[i].byUndo)
    && match t.phase
       case Starting => x.replaced.None?
       case Putting(body, read, _) => x.replaced.None? && body == x.after && read == x.before
       case Confirming(body, stored) => body == x.after && (stored <==> x.replaced.Some?)
       case Reporting(v, fact) => Classified(false, v, fact) && ReportOk(x, Report(false, t.early, fact))
  }

  predicate TaskOk(x: Entry, t: Task) {
    if t.request.Some? then WriteOk(x, t) else UndoOk(x, t)
  }

  /** Between its GET and its PUT, a task's history accounts for the document. */
  predicate InTouch(t: Task, live: Value) {
    t.phase.Putting? ==> live == Last(t.phase.read, t.phase.latest)
  }

  predicate EntriesOk(s: State) {
    forall id | id in s.entries :: EntryOk(s.entries[id], s.live)
  }

  predicate TasksOk(s: State) {
    forall k | k in s.tasks ::
      s.tasks[k].id in s.entries && TaskOk(s.entries[s.tasks[k].id], s.tasks[k]) && InTouch(s.tasks[k], s.live)
  }

  /** At most one write is in flight, and it is known to be. */
  predicate OneWrite(s: State) {
    && (forall k | k in s.tasks :: s.tasks[k].request.Some? ==> s.inFlight)
    && (forall j, k | j in s.tasks && k in s.tasks && s.tasks[j].request.Some? && s.tasks[k].request.Some? :: j == k)
  }

  predicate Inv(s: State) { EntriesOk(s) && TasksOk(s) && OneWrite(s) }

  /** The requests in flight are as they were built. */
  ghost predicate Built(hash: Hash, s: State) {
    forall k | k in s.tasks :: s.tasks[k].request.Some? ==> WellBuilt(hash, s.tasks[k].request.value)
  }

  /** What no step takes from an entry: its documents, and once its write landed its history. */
  predicate Grows(x: Entry, x': Entry) {
    && x'.before == x.before && x'.after == x.after
    && (x.replaced.Some? ==> x'.replaced == x.replaced && x'.over == x.over && (x.changed ==> x'.changed) && (x.undone ==> x'.undone))
  }

  lemma UndoStable(x: Entry, x': Entry, t: Task)
    requires Grows(x, x') && UndoOk(x, t)
    ensures UndoOk(x', t)
  {
  }

  /** An entry with the document replaced, by the same one or another. */
  function Noted(x: Entry, differs: bool): Entry {
    if differs && x.replaced.Some? then x.(changed := true) else x
  }

  lemma NotedOk(x: Entry, live: Value, live': Value)
    requires EntryOk(x, live)
    ensures EntryOk(Noted(x, live' != live), live')
  {
    ReportsStable(x, Noted(x, live' != live));
  }

  /** A task with the document replaced, by the same one or another. */
  function NotedTask(t: Task, live: Value, live': Value): Task {
    if live' != live then Overtaken(t, live') else t
  }

  lemma NotedTaskOk(x: Entry, live: Value, live': Value, t: Task)
    requires TaskOk(x, t) && InTouch(t, live)
    ensures TaskOk(Noted(x, live' != live), NotedTask(t, live, live')) && InTouch(NotedTask(t, live, live'), live')
  {
    if t.request.None? { UndoStable(x, Noted(x, live' != live), t); }
  }

  lemma ReplacedShape(s: State, document: Value)
    ensures var s' := Replaced(s, document);
            && s'.live == document && s'.inFlight == s.inFlight
            && s'.tasks.Keys == s.tasks.Keys && s'.entries.Keys == s.entries.Keys
            && (forall k | k in s.tasks :: s'.tasks[k] == NotedTask(s.tasks[k], s.live, document))
            && forall id | id in s.entries :: s'.entries[id] == Noted(s.entries[id], document != s.live)
  {
  }

  lemma ReplacedEntriesOk(s: State, document: Value)
    requires EntriesOk(s)
    ensures EntriesOk(Replaced(s, document))
  {
    var s' := Replaced(s, document);
    ReplacedShape(s, document);
    forall id | id in s'.entries ensures EntryOk(s'.entries[id], s'.live) {
      NotedOk(s.entries[id], s.live, document);
    }
  }

  lemma ReplacedTasksOk(s: State, document: Value)
    requires TasksOk(s)
    ensures TasksOk(Replaced(s, document))
  {
    var s' := Replaced(s, document);
    ReplacedShape(s, document);
    forall k | k in s'.tasks
      ensures s'.tasks[k].id in s'.entries && TaskOk(s'.entries[s'.tasks[k].id], s'.tasks[k]) && InTouch(s'.tasks[k], s'.live)
    {
      NotedTaskOk(s.entries[s.tasks[k].id], s.live, document, s.tasks[k]);
    }
  }

  lemma ReplacedOneWrite(s: State, document: Value)
    requires OneWrite(s)
    ensures OneWrite(Replaced(s, document))
  {
    ReplacedShape(s, document);
  }

  /** The document replaced, with no entry's own part in it. */
  lemma ReplacedKeepsInv(s: State, document: Value)
    requires Inv(s)
    ensures Inv(Replaced(s, document))
  {
    ReplacedEntriesOk(s, document);
    ReplacedTasksOk(s, document);
    ReplacedOneWrite(s, document);
  }

  lemma ReportsStable(x: Entry, x': Entry)
    requires Grows(x, x') && x'.replaced == x.replaced && x'.reports == x.reports
    requires forall i | 0 <= i < |x.reports| :: ReportOk(x, x.reports[i])
    ensures forall i | 0 <= i < |x.reports| :: ReportOk(x', x'.reports[i])
  {
    forall i | 0 <= i < |x.reports| ensures ReportOk(x', x'.reports[i]) { assert ReportOk(x, x.reports[i]); }
  }

  /** One task moves to its next phase, and its entry's history grows with it. */
  lemma StepKeepsInv(s: State, task: nat, t: Task, x: Entry)
    requires Inv(s) && task in s.tasks && t.id == s.tasks[task].id && t.request == s.tasks[task].request
    requires Grows(s.entries[t.id], x) && EntryOk(x, s.live) && TaskOk(x, t) && InTouch(t, s.live)
    requires t.request.None? ==> x == s.entries[t.id].(undone := x.undone)
    ensures Inv(Step(s, task, t, x))
  {
    var s' := Step(s, task, t, x);
    forall k | k in s'.tasks ensures TaskOk(s'.entries[s'.tasks[k].id], s'.tasks[k]) {
      if k != task && s.tasks[k].id == t.id { OtherTaskOk(s.tasks[k], t, s.entries[t.id], x); }
    }
  }

  lemma OtherTaskOk(other: Task, t: Task, x: Entry, x': Entry)
    requires TaskOk(x, other) && Grows(x, x') && !(other.request.Some? && t.request.Some?)
    requires t.request.None? ==> x' == x.(undone := x'.undone)
    ensures TaskOk(x', other)
  {
    if other.request.None? { UndoStable(x, x', other); }
  }

  lemma GetKeepsInv(s: State, task: nat, fails: bool, backupFails: bool, prepared: Result<Value, Failure>)
    requires Inv(s) && task in s.tasks && s.tasks[task].phase.Starting?
    requires var t := s.tasks[task];
             var x := s.entries[t.id];
             prepared == if t.request.Some? then if s.live == x.before then Ok(x.after) else Err(Stale)
                         else if s.live == x.after then Ok(x.before) else Err(Stale)
    ensures Inv(GetStep(s, task, fails, backupFails, prepared))
  {
    var t := s.tasks[task];
    assert TaskOk(s.entries[t.id], t) && EntryOk(s.entries[t.id], s.live);
    var s' := GetStep(s, task, fails, backupFails, prepared);
    StepKeepsInv(s, task, s'.tasks[task], s.entries[t.id]);
  }

  lemma PutKeepsInv(s: State, task: nat, answered: bool, stored: bool)
    requires Inv(s) && task in s.tasks && s.tasks[task].phase.Putting?
    ensures Inv(PutStep(s, task, answered, stored))
  {
    var t := s.tasks[task];
    var x := s.entries[t.id];
    assert TaskOk(x, t) && EntryOk(x, s.live) && InTouch(t, s.live);
    var t' := PutStep(s, task, answered, stored).tasks[task];
    if stored {
      StoredKeepsInv(s, task, t');
    } else {
      PutEntry(x, x, x, t, t', s.live, s.live, false);
      StepKeepsInv(s, task, t', x);
    }
  }

  lemma StoredKeepsInv(s: State, task: nat, t': Task)
    requires Inv(s) && task in s.tasks && s.tasks[task].phase.Putting?
    requires var t := s.tasks[task];
             && t' == t.(phase := t'.phase)
             && (t'.phase == Confirming(t.phase.body, true) || t'.phase == Reporting(Err(NotWritten), PutErrored(true)))
    ensures var t := s.tasks[task];
            var s1 := Replaced(s, t.phase.body);
            t.id in s1.entries && Inv(Step(s1, task, t', Landed(s1.entries[t.id], t, s.live)))
  {
    var t := s.tasks[task];
    var s1 := Replaced(s, t.phase.body);
    ReplacedKeepsInv(s, t.phase.body);
    ReplacedShape(s, t.phase.body);
    var x, x1 := s.entries[t.id], s1.entries[t.id];
    assert TaskOk(x, t) && EntryOk(x, s.live) && InTouch(t, s.live) && EntryOk(x1, s1.live);
    PutEntry(x1, Landed(x1, t, s.live), x, t, t', s.live, s1.live, true);
    StepKeepsInv(s1, task, t', Landed(x1, t, s.live));
  }

  /** The entry of a task whose PUT is made: x as it was, x1 with the document replaced, x' after. */
  lemma PutEntry(x1: Entry, x': Entry, x: Entry, t: Task, t': Task, live: Value, live': Value, stored: bool)
    requires EntryOk(x, live) && EntryOk(x1, live') && TaskOk(x, t) && InTouch(t, live)
    requires t.phase.Putting? && live' == (if stored then t.phase.body else live)
    requires x1 == Noted(x, live' != live)
    requires x' == if stored then Landed(x1, t, live) else x1
    requires t' == t.(phase := t'.phase)
    requires t'.phase == Confirming(t.phase.body, stored) || t'.phase == Reporting(Err(NotWritten), PutErrored(stored))
    ensures Grows(x1, x') && EntryOk(x', live') && TaskOk(x', t')
  {
    if t.request.Some? {
      forall i | 0 <= i < |x'.reports| ensures ReportOk(x', x'.reports[i]) {
        assert ReportOk(x1, x1.reports[i]) && x1.reports[i].byUndo;
      }
    } else {
      ReportsStable(x1, x');
    }
  }

  lemma ReadBackKeepsInv(s: State, task: nat, fails: bool)
    requires Inv(s) && task in s.tasks && s.tasks[task].phase.Confirming?
    ensures Inv(ReadBackStep(s, task, fails))
  {
    var t := s.tasks[task];
    assert TaskOk(s.entries[t.id], t) && EntryOk(s.entries[t.id], s.live);
    var s' := ReadBackStep(s, task, fails);
    StepKeepsInv(s, task, s'.tasks[task], s.entries[t.id]);
  }

  lemma MarkKeepsInv(s: State, task: nat)
    requires Inv(s) && task in s.tasks && s.tasks[task].phase.Reporting?
    ensures Inv(MarkStep(s, task))
  {
    var t := s.tasks[task];
    var s' := MarkStep(s, task);
    var x, x' := s.entries[t.id], s'.entries[t.id];
    assert TaskOk(x, t) && EntryOk(x, s.live);
    MarkedEntry(x, x', t, s.live);
    forall k | k in s'.tasks ensures TaskOk(s'.entries[s'.tasks[k].id], s'.tasks[k]) {
      assert TaskOk(s.entries[s.tasks[k].id], s.tasks[k]);
      if s.tasks[k].id == t.id {
        if s.tasks[k].request.None? { UndoStable(x, x', s.tasks[k]); }
      }
    }
  }

  lemma MarkedEntry(x: Entry, x': Entry, t: Task, live: Value)
    requires EntryOk(x, live) && t.phase.Reporting? && Classified(t.request.None?, t.phase.verdict, t.phase.fact)
    requires ReportOk(x, Report(t.request.None?, t.early, t.phase.fact))
    requires var status := if t.request.Some? then UndoDisposition(t.phase.verdict) else UndoResultDisposition(t.phase.verdict);
             x' == x.(status := if status.Some? then status.value else x.status,
                      reports := x.reports + [Report(t.request.None?, t.early, t.phase.fact)])
    ensures EntryOk(x', live)
  {
    var n := |x.reports|;
    assert x'.reports[n] == Report(t.request.None?, t.early, t.phase.fact) && x'.reports[..n] == x.reports;
    assert forall i | 0 <= i < n :: x'.reports[i] == x.reports[i];
    forall i | 0 <= i <= n ensures ReportOk(x', x'.reports[i]) {
      if i < n { assert ReportOk(x, x.reports[i]); }
    }
    if !x'.status.Pending? && !x'.status.Expired? && !Retires(x'.reports[n]) {
      var i :| 0 <= i < n && Retires(x.reports[i]);
      assert Retires(x'.reports[i]);
    }
  }

  lemma StartKeepsInv(s: State, id: Id, task: nat, r: Request)
    requires Inv(s) && !s.inFlight && id !in s.entries && task !in s.tasks
    ensures Inv(State(s.live, s.entries[id := Entry(r.previous, r.after, Pending, None, None, false, false, [])],
                      s.tasks[task := Task(id, Some(r), Starting, true)], true))
  {
  }

  lemma ExpireKeepsInv(s: State, id: Id)
    requires Inv(s) && id in s.entries && s.entries[id].status.Pending?
    ensures Inv(s.(entries := s.entries[id := s.entries[id].(status := Expired)]))
  {
    var x, x' := s.entries[id], s.entries[id].(status := Expired);
    assert EntryOk(x, s.live);
    ReportsStable(x, x');
    forall k | k in s.tasks && s.tasks[k].id == id ensures TaskOk(x', s.tasks[k]) {
      assert TaskOk(x, s.tasks[k]);
      if s.tasks[k].request.None? { UndoStable(x, x', s.tasks[k]); }
    }
  }

  lemma ApplyKeepsInv(hash: Hash, s: State, e: Event)
    requires GoodHash(hash) && Inv(s) && Built(hash, s) && Enabled(hash, s, e)
    ensures Inv(Apply(hash, s, e))
  {
    match e
    case Get(task, fails, backupFails) =>
      var t := s.tasks[task];
      assert TaskOk(s.entries[t.id], t);
      if t.request.Some? { PreparedIsReviewed(hash, t.request.value, s.live); }
      GetKeepsInv(s, task, fails, backupFails, Prepared(hash, s, task));
    case Put(task, answered, stored) => PutKeepsInv(s, task, answered, stored);
    case ReadBack(task, fails) => ReadBackKeepsInv(s, task, fails);
    case Mark(task) => MarkKeepsInv(s, task);
    case Foreign(document) => ReplacedKeepsInv(s, document);
    case StartWrite(id, task, r) => StartKeepsInv(s, id, task, r);
    case StartUndo(id, task) =>
    case Expire(id) => ExpireKeepsInv(s, id);
    case Quit =>
  }

  lemma ApplyKeepsBuilt(hash: Hash, s: State, e: Event)
    requires Built(hash, s) && Enabled(hash, s, e)
    ensures Built(hash, Apply(hash, s, e))
  {
  }

  lemma {:induction false} RunKeepsInv(hash: Hash, s: State, es: seq<Event>)
    requires GoodHash(hash) && Inv(s) && Built(hash, s)
    ensures Run(hash, s, es).Some? ==> Inv(Run(hash, s, es).value) && Built(hash, Run(hash, s, es).value)
    decreases |es|
  {
    if es != [] && Enabled(hash, s, es[0]) {
      ApplyKeepsInv(hash, s, es[0]);
      ApplyKeepsBuilt(hash, s, es[0]);
      RunKeepsInv(hash, Apply(hash, s, es[0]), es[1..]);
    }
  }
}
