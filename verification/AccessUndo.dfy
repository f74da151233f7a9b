/**
 What the write and undo protocol guarantees over runs, and exactly when the undo of a write that
 landed goes out of reach.
 */
module AccessUndo {
  import opened Common
  import opened Json
  import opened Canonical
  import opened AccessDocument
  import opened AccessWrite

  ghost predicate Reaches(hash: Hash, live: Value, es: seq<Event>) {
    GoodHash(hash) && Run(hash, Start(live), es).Some?
  }

  ghost function Reached(hash: Hash, live: Value, es: seq<Event>): State
    requires Reaches(hash, live, es)
  {
    Run(hash, Start(live), es).value
  }

  lemma ReachedOk(hash: Hash, live: Value, es: seq<Event>)
    requires Reaches(hash, live, es)
    ensures Inv(Reached(hash, live, es)) && Built(hash, Reached(hash, live, es))
  {
    RunKeepsInv(hash, Start(live), es);
  }

  /****** what changes the document, and what is known of it ******/

  /** Nothing was put since a read of `read`, or that very document was put last. */
  predicate Unmoved(read: Value, latest: Option<Value>) { latest.None? || latest == Some(read) }

  /**
   In every run the program changes the document by a stored PUT only: of the result a write's user
   reviewed, or of an undo entry's prior document.  What it replaces is the document that user
   reviewed, or the entry's written one, exactly when nothing else was put since the task's GET, or
   that document was put last.
   */
  lemma OnlyReviewedChanges(hash: Hash, live: Value, es: seq<Event>, e: Event)
    requires Reaches(hash, live, es) && Enabled(hash, Reached(hash, live, es), e)
    requires Apply(hash, Reached(hash, live, es), e).live != Reached(hash, live, es).live && !e.Foreign?
    ensures e.Put? && e.stored
    ensures var s := Reached(hash, live, es);
            var t := s.tasks[e.task];
            var x, now := s.entries[t.id], Apply(hash, s, e).live;
            if t.request.Some? then
              && now == t.request.value.after && Amend(t.request.value.previous, t.request.value.amendment) == Ok(now)
              && (s.live == t.request.value.previous <==> Unmoved(t.request.value.previous, t.phase.latest))
            else
              now == x.before && (s.live == x.after <==> Unmoved(x.after, t.phase.latest))
  {
    ReachedOk(hash, live, es);
    var s := Reached(hash, live, es);
    if e.Put? { PuttingOk(s, e.task); }
  }

  lemma PuttingOk(s: State, task: nat)
    requires Inv(s) && task in s.tasks && s.tasks[task].phase.Putting?
    ensures var t := s.tasks[task];
            t.id in s.entries && TaskOk(s.entries[t.id], t) && s.live == Last(t.phase.read, t.phase.latest)
  {
    assert InTouch(s.tasks[task], s.live);
  }

  /** The document put last in a run, if any was that differed from the one there. */
  ghost function LastChange(hash: Hash, s: State, es: seq<Event>): Option<Value>
    requires Run(hash, s, es).Some?
    decreases |es|
  {
    if es == [] then None
    else
      var s' := Apply(hash, s, es[0]);
      var later := LastChange(hash, s', es[1..]);
      if later.Some? then later else if s'.live != s.live then Some(s'.live) else None
  }

  lemma LatestStep(hash: Hash, s: State, e: Event, task: nat)
    requires Enabled(hash, s, e) && !e.Quit? && (e.Put? ==> e.task != task)
    requires task in s.tasks && s.tasks[task].phase.Putting?
    ensures var s' := Apply(hash, s, e);
            && task in s'.tasks && s'.tasks[task] == NotedTask(s.tasks[task], s.live, s'.live)
  {
    if e.Put? && e.stored { ReplacedShape(s, s.tasks[e.task].phase.body); }
    if e.Foreign? { ReplacedShape(s, e.document); }
  }

  /**
   A PUT that takes effect replaces the document its task read exactly when no other task's, and no
   one else's, changed it in between, or the last that did put it back: `latest` is that change.
   */
  lemma {:induction false} LatestIsLastChange(hash: Hash, s: State, es: seq<Event>, task: nat)
    requires Run(hash, s, es).Some? && task in s.tasks && s.tasks[task].phase.Putting?
    requires s.live == Last(s.tasks[task].phase.read, s.tasks[task].phase.latest)
    requires forall e | e in es :: !e.Quit? && (e.Put? ==> e.task != task)
    ensures var s' := Run(hash, s, es).value;
            var p, last := s.tasks[task].phase, LastChange(hash, s, es);
            && task in s'.tasks
            && s'.tasks[task].phase == Putting(p.body, p.read, if last.Some? then last else p.latest)
            && s'.live == (if last.Some? then last.value else s.live)
            && (p.latest.None? ==> (s'.live == p.read <==> Unmoved(p.read, last)))
    decreases |es|
  {
    if es != [] {
      assert es[0] in es;
      LatestStep(hash, s, es[0], task);
      LatestIsLastChange(hash, Apply(hash, s, es[0]), es[1..], task);
    }
  }

  /** In every run a verdict of "done" means the read-back found exactly what the task was to leave. */
  lemma DoneMeansShown(hash: Hash, live: Value, es: seq<Event>, task: nat, fails: bool)
    requires Reaches(hash, live, es) && Enabled(hash, Reached(hash, live, es), ReadBack(task, fails))
    ensures var s := Reached(hash, live, es);
            var t, x := s.tasks[task], s.entries[s.tasks[task].id];
            var intended := if t.request.Some? then x.after else x.before;
            var v := Apply(hash, s, ReadBack(task, fails)).tasks[task].phase.verdict;
            (v.Ok? <==> !fails && s.live == intended) && (v.Err? ==> v.error.AcceptedButUnconfirmed?)
  {
    ReachedOk(hash, live, es);
    var s := Reached(hash, live, es);
    assert TaskOk(s.entries[s.tasks[task].id], s.tasks[task]);
  }

  /**
   In every run, a write that landed replaced the document its entry would restore exactly when
   nothing else was put between its GET and its PUT, or that document was put last.
   */
  lemma LandedOverReviewed(hash: Hash, live: Value, es: seq<Event>, id: Id)
    requires Reaches(hash, live, es) && id in Reached(hash, live, es).entries
    ensures var x := Reached(hash, live, es).entries[id];
            x.replaced.Some? ==> (x.replaced == Some(x.before) <==> Unmoved(x.before, x.over))
  {
    ReachedOk(hash, live, es);
    assert EntryOk(Reached(hash, live, es).entries[id], Reached(hash, live, es).live);
  }

  /**
   In every run, an undo's PUT puts the entry's prior document; that is what the write replaced
   exactly when the write landed and nothing else came between its GET and its PUT, and it goes over
   the written document exactly when nothing else came between the undo's own.
   */
  lemma UndoRestoresIffLanded(hash: Hash, live: Value, es: seq<Event>, task: nat, answered: bool)
    requires Reaches(hash, live, es) && Enabled(hash, Reached(hash, live, es), Put(task, answered, true))
    requires Reached(hash, live, es).tasks[task].request.None?
    ensures var s := Reached(hash, live, es);
            var t, x := s.tasks[task], s.entries[s.tasks[task].id];
            var now := Apply(hash, s, Put(task, answered, true)).live;
            && now == x.before
            && (Some(now) == x.replaced <==> x.replaced.Some? && Unmoved(x.before, x.over))
            && (s.live == x.after <==> Unmoved(x.after, t.phase.latest))
  {
    ReachedOk(hash, live, es);
    var s := Reached(hash, live, es);
    PuttingOk(s, task);
    ReplacedShape(s, s.tasks[task].phase.body);
    LandedOverReviewed(hash, live, es, s.tasks[task].id);
  }

  /****** one task at a time ******/

  /**
   A run in which nothing starts while a task is in flight, which the program sees to only for two
   writes, and nobody else changes the document between a GET and its PUT.
   */
  ghost predicate Serial(hash: Hash, s: State, es: seq<Event>)
    decreases |es|
  {
    es == [] ||
    (Enabled(hash, s, es[0]) ==> SerialEvent(s, es[0]) && Serial(hash, Apply(hash, s, es[0]), es[1..]))
  }

  predicate SerialEvent(s: State, e: Event) {
    && (e.StartWrite? || e.StartUndo? ==> s.tasks == map[])
    && (e.Foreign? ==> forall k | k in s.tasks :: !s.tasks[k].phase.Putting?)
  }

  predicate SerialInv(s: State) {
    && (forall j, k | j in s.tasks && k in s.tasks :: j == k)
    && (forall k | k in s.tasks && s.tasks[k].phase.Putting? :: s.tasks[k].phase.latest.None?)
    && (forall id | id in s.entries :: s.entries[id].over.None?)
  }

  lemma SerialPut(hash: Hash, s: State, e: Event)
    requires SerialInv(s) && Enabled(hash, s, e) && e.Put?
    ensures SerialInv(Apply(hash, s, e))
  {
    ReplacedShape(s, s.tasks[e.task].phase.body);
    var s' := Apply(hash, s, e);
    assert s'.tasks.Keys == s.tasks.Keys && !s'.tasks[e.task].phase.Putting?;
  }

  lemma SerialStep(hash: Hash, s: State, e: Event)
    requires SerialInv(s) && Enabled(hash, s, e) && SerialEvent(s, e)
    ensures SerialInv(Apply(hash, s, e))
  {
    if e.Put? {
      SerialPut(hash, s, e);
    } else if e.Foreign? {
      ReplacedShape(s, e.document);
    }
  }

  lemma {:induction false} SerialRun(hash: Hash, s: State, es: seq<Event>)
    requires SerialInv(s) && Serial(hash, s, es) && Run(hash, s, es).Some?
    ensures SerialInv(Run(hash, s, es).value)
    decreases |es|
  {
    if es != [] {
      SerialStep(hash, s, es[0]);
      SerialRun(hash, Apply(hash, s, es[0]), es[1..]);
    }
  }

  /**
   In every such run a write replaces exactly the reviewed document by the reviewed result, an undo
   exactly its entry's written document by its prior one, and that is what the write had replaced
   exactly if it landed.
   */
  lemma SerialChangesAreReviewed(hash: Hash, live: Value, es: seq<Event>, task: nat, answered: bool)
    requires Reaches(hash, live, es) && Serial(hash, Start(live), es)
    requires Enabled(hash, Reached(hash, live, es), Put(task, answered, true))
    ensures var s := Reached(hash, live, es);
            var t, x := s.tasks[task], s.entries[s.tasks[task].id];
            var now := Apply(hash, s, Put(task, answered, true)).live;
            if t.request.Some? then s.live == t.request.value.previous && now == t.request.value.after
            else s.live == x.after && now == x.before && (Some(now) == x.replaced <==> x.replaced.Some?)
  {
    ReachedOk(hash, live, es);
    SerialRun(hash, Start(live), es);
    var s := Reached(hash, live, es);
    PuttingOk(s, task);
    ReplacedShape(s, s.tasks[task].phase.body);
    LandedOverReviewed(hash, live, es, s.tasks[task].id);
  }

  lemma SerialLandedOverReviewed(hash: Hash, live: Value, es: seq<Event>, id: Id)
    requires Reaches(hash, live, es) && Serial(hash, Start(live), es) && id in Reached(hash, live, es).entries
    ensures var x := Reached(hash, live, es).entries[id]; x.replaced.Some? ==> x.replaced == Some(x.before)
  {
    SerialRun(hash, Start(live), es);
    LandedOverReviewed(hash, live, es, id);
  }

  /****** an attempt that nothing disturbs ******/

  predicate Stands(s: State, task: nat, t: Task, x: Entry) {
    task in s.tasks && s.tasks[task] == t && t.id in s.entries && s.entries[t.id] == x
  }

  lemma Gets(hash: Hash, s: State, task: nat, t: Task, x: Entry, body: Value)
    requires Stands(s, task, t, x) && t.phase.Starting? && Prepared(hash, s, task) == Ok(body)
    ensures Enabled(hash, s, Get(task, false, false))
    ensures var s' := Apply(hash, s, Get(task, false, false));
            s'.live == s.live && Stands(s', task, t.(phase := Putting(body, s.live, None), early := x.replaced.None?), x)
  {
  }

  lemma Puts(hash: Hash, s: State, task: nat, t: Task, x: Entry)
    requires Stands(s, task, t, x) && t.phase.Putting? && t.phase.latest.None?
    ensures Enabled(hash, s, Put(task, true, true))
    ensures var s' := Apply(hash, s, Put(task, true, true));
            && s'.live == t.phase.body
            && Stands(s', task, t.(phase := Confirming(t.phase.body, true)), Landed(Noted(x, t.phase.body != s.live), t, s.live))
  {
    ReplacedShape(s, t.phase.body);
  }

  lemma ReadsBack(hash: Hash, s: State, task: nat, t: Task, x: Entry)
    requires Stands(s, task, t, x) && t.phase == Confirming(s.live, true)
    ensures Enabled(hash, s, ReadBack(task, false))
    ensures var s' := Apply(hash, s, ReadBack(task, false));
            s'.live == s.live && Stands(s', task, t.(phase := Reporting(Ok(()), PutAnswered(true, true))), x)
  {
  }

  lemma Marks(hash: Hash, s: State, task: nat, t: Task, x: Entry)
    requires Stands(s, task, t, x) && t.phase == Reporting(Ok(()), PutAnswered(true, true))
    ensures Enabled(hash, s, Mark(task))
    ensures var s' := Apply(hash, s, Mark(task));
            && s'.live == s.live && task !in s'.tasks && t.id in s'.entries
            && s'.entries[t.id] == x.(status := if t.request.Some? then x.status else AppliedSuccess,
                                      reports := x.reports + [Report(t.request.None?, t.early, PutAnswered(true, true))])
  {
  }

  /** The events of an attempt all of whose requests are answered and take effect. */
  function Attempt(task: nat): seq<Event> {
    [Get(task, false, false)] + ([Put(task, true, true)] + ([ReadBack(task, false)] + ([Mark(task)] + [])))
  }

  lemma Next(hash: Hash, s: State, e: Event, es: seq<Event>)
    requires Enabled(hash, s, e) && Run(hash, Apply(hash, s, e), es).Some?
    ensures Run(hash, s, [e] + es) == Run(hash, Apply(hash, s, e), es)
  {
    assert ([e] + es)[1..] == es;
  }

  /** From wherever it starts, it leaves the document it was to, and its entry says so. */
  lemma AttemptLands(hash: Hash, s: State, task: nat, t: Task, x: Entry, body: Value)
    requires Stands(s, task, t, x) && t.phase.Starting? && Prepared(hash, s, task) == Ok(body)
    ensures Run(hash, s, Attempt(task)).Some?
    ensures var s' := Run(hash, s, Attempt(task)).value;
            && s'.live == body && task !in s'.tasks && t.id in s'.entries
            && s'.entries[t.id].status == (if t.request.Some? then x.status else AppliedSuccess)
            && s'.entries[t.id].replaced == (if t.request.Some? then Some(s.live) else x.replaced)
            && s'.entries[t.id].undone == (t.request.None? && (x.undone || x.replaced.Some?))
  {
    var s1 := Apply(hash, s, Get(task, false, false));
    var t1 := t.(phase := Putting(body, s.live, None), early := x.replaced.None?);
    Gets(hash, s, task, t, x, body);
    var s2 := Apply(hash, s1, Put(task, true, true));
    var t2, x2 := t1.(phase := Confirming(body, true)), Landed(Noted(x, body != s.live), t1, s.live);
    Puts(hash, s1, task, t1, x);
    var s3 := Apply(hash, s2, ReadBack(task, false));
    var t3 := t2.(phase := Reporting(Ok(()), PutAnswered(true, true)));
    ReadsBack(hash, s2, task, t2, x2);
    var s4 := Apply(hash, s3, Mark(task));
    Marks(hash, s3, task, t3, x2);
    assert Run(hash, s4, []) == Some(s4);
    Next(hash, s3, Mark(task), []);
    Next(hash, s2, ReadBack(task, false), [Mark(task)] + []);
    Next(hash, s1, Put(task, true, true), [ReadBack(task, false)] + ([Mark(task)] + []));
    Next(hash, s, Get(task, false, false), [Put(task, true, true)] + ([ReadBack(task, false)] + ([Mark(task)] + [])));
  }

  /** A write on the document its user reviewed, undisturbed, leaves the reviewed result and a pending undo. */
  lemma WriteLeavesReviewed(hash: Hash, s: State, id: Id, task: nat, r: Request)
    requires GoodHash(hash) && Enabled(hash, s, StartWrite(id, task, r)) && s.live == r.previous
    ensures Run(hash, s, [StartWrite(id, task, r)] + Attempt(task)).Some?
    ensures var s' := Run(hash, s, [StartWrite(id, task, r)] + Attempt(task)).value;
            && s'.live == r.after && id in s'.entries && s'.entries[id].status.Pending?
            && s'.entries[id].before == r.previous && s'.entries[id].after == r.after && s'.entries[id].replaced == Some(r.previous)
  {
    var x := Entry(r.previous, r.after, Pending, None, None, false, false, []);
    var s1 := Apply(hash, s, StartWrite(id, task, r));
    PreparedIsReviewed(hash, r, r.previous);
    AttemptLands(hash, s1, task, Task(id, Some(r), Starting, true), x, r.after);
    Next(hash, s, StartWrite(id, task, r), Attempt(task));
    DocumentsStay(hash, s1, Attempt(task), id);
  }

  /** An undo of a pending entry whose written document is there, undisturbed, puts back its prior one. */
  lemma UndoLeavesPrior(hash: Hash, s: State, id: Id, task: nat)
    requires Enabled(hash, s, StartUndo(id, task)) && s.live == s.entries[id].after
    ensures Run(hash, s, [StartUndo(id, task)] + Attempt(task)).Some?
    ensures var s' := Run(hash, s, [StartUndo(id, task)] + Attempt(task)).value;
            s'.live == s.entries[id].before && id in s'.entries && s'.entries[id].status.AppliedSuccess?
  {
    AttemptLands(hash, Apply(hash, s, StartUndo(id, task)), task, Task(id, None, Starting, true), s.entries[id], s.entries[id].before);
    Next(hash, s, StartUndo(id, task), Attempt(task));
  }

  /**
   An attempt that cannot read, whose document is not the one it is for, or that writes and cannot back
   up first, puts nothing: its entry says failure, or for an undo of a replaced document conflict.
   */
  lemma AttemptStops(hash: Hash, s: State, task: nat, t: Task, x: Entry, fails: bool, backupFails: bool)
    requires Stands(s, task, t, x) && t.phase.Starting?
    requires fails || Prepared(hash, s, task).Err? || (t.request.Some? && backupFails)
    requires t.request.Some? && Prepared(hash, s, task).Err? ==> Prepared(hash, s, task) != Err(AcceptedButUnconfirmed)
    ensures Run(hash, s, [Get(task, fails, backupFails)] + ([Mark(task)] + [])).Some?
    ensures var s' := Run(hash, s, [Get(task, fails, backupFails)] + ([Mark(task)] + [])).value;
            && s'.live == s.live && task !in s'.tasks && t.id in s'.entries
            && s'.entries[t.id].status == (if t.request.None? && !fails then AppliedConflict else AppliedFailure)
            && s'.entries[t.id].replaced == x.replaced && s'.entries[t.id].undone == x.undone
  {
    var s1 := Apply(hash, s, Get(task, fails, backupFails));
    var s2 := Apply(hash, s1, Mark(task));
    assert Run(hash, s2, []) == Some(s2);
    Next(hash, s1, Mark(task), []);
    Next(hash, s, Get(task, fails, backupFails), [Mark(task)] + []);
  }

  function Writers(s: State): set<nat> { set k | k in s.tasks && s.tasks[k].request.Some? }

  /** A write is known to be in flight exactly while one is, so the next can start when it is over. */
  predicate FlightKnown(s: State) { s.inFlight <==> Writers(s) != {} }

  /** Steps that neither start a task nor end one. */
  lemma FlightMoves(hash: Hash, s: State, e: Event)
    requires Enabled(hash, s, e) && (e.Get? || e.Put? || e.ReadBack? || e.Expire? || e.Foreign?)
    ensures Writers(Apply(hash, s, e)) == Writers(s) && Apply(hash, s, e).inFlight == s.inFlight
  {
    if e.Put? { ReplacedShape(s, s.tasks[e.task].phase.body); }
    if e.Foreign? { ReplacedShape(s, e.document); }
  }

  lemma FlightMark(hash: Hash, s: State, task: nat)
    requires Inv(s) && FlightKnown(s) && Enabled(hash, s, Mark(task))
    ensures FlightKnown(Apply(hash, s, Mark(task)))
  {
    var s' := Apply(hash, s, Mark(task));
    assert Writers(s') == Writers(s) - {task};
    if s.tasks[task].request.Some? {
      assert forall k | k in Writers(s) :: k == task;
    }
  }

  lemma FlightStep(hash: Hash, s: State, e: Event)
    requires Inv(s) && FlightKnown(s) && Enabled(hash, s, e)
    ensures FlightKnown(Apply(hash, s, e))
  {
    match e
    case StartWrite(id, task, r) => assert task in Writers(Apply(hash, s, e));
    case StartUndo(id, task) => assert Writers(Apply(hash, s, e)) == Writers(s);
    case Mark(task) => FlightMark(hash, s, task);
    case Quit =>
    case _ => FlightMoves(hash, s, e);
  }

  lemma {:induction false} FlightRun(hash: Hash, s: State, es: seq<Event>)
    requires GoodHash(hash) && Inv(s) && Built(hash, s) && FlightKnown(s) && Run(hash, s, es).Some?
    ensures FlightKnown(Run(hash, s, es).value)
    decreases |es|
  {
    if es != [] {
      ApplyKeepsInv(hash, s, es[0]);
      ApplyKeepsBuilt(hash, s, es[0]);
      FlightStep(hash, s, es[0]);
      FlightRun(hash, Apply(hash, s, es[0]), es[1..]);
    }
  }

  lemma FlightIsKnown(hash: Hash, live: Value, es: seq<Event>)
    requires Reaches(hash, live, es)
    ensures FlightKnown(Reached(hash, live, es))
  {
    FlightRun(hash, Start(live), es);
  }

  lemma {:induction false} DocumentsStay(hash: Hash, s: State, es: seq<Event>, id: Id)
    requires Run(hash, s, es).Some? && id in s.entries
    ensures var s' := Run(hash, s, es).value;
            id in s'.entries && s'.entries[id].before == s.entries[id].before && s'.entries[id].after == s.entries[id].after
    decreases |es|
  {
    if es != [] {
      DocumentStep(hash, s, es[0], id);
      DocumentsStay(hash, Apply(hash, s, es[0]), es[1..], id);
    }
  }

  lemma DocumentStep(hash: Hash, s: State, e: Event, id: Id)
    requires Enabled(hash, s, e) && id in s.entries
    ensures var s' := Apply(hash, s, e);
            id in s'.entries && s'.entries[id].before == s.entries[id].before && s'.entries[id].after == s.entries[id].after
  {
  }

  /****** when the undo of a landed write is out of reach ******/

  /** The write's own PUT took effect, but came back as an error. */
  predicate LostAnswer(x: Entry) {
    exists i | 0 <= i < |x.reports| :: !x.reports[i].byUndo && x.reports[i].fact == PutErrored(true)
  }

  /**
   An undo ended the entry without undoing it: it read the document before the write landed, could
   not read it, had its PUT refused, or the document had become another one.  An edit that leaves the
   document as it was is its own undo.
   */
  predicate Spent(x: Entry, r: Report) {
    && r.byUndo && Retires(r)
    && (r.early || r.fact.ReadFailed? || r.fact == PutErrored(false) || x.changed || x.before == x.after)
  }

  predicate UndoSpent(x: Entry) {
    exists i | 0 <= i < |x.reports| :: Spent(x, x.reports[i])
  }

  /**
   In every run: the entry of a write that landed and was not undone since has left `Pending` exactly
   when it expired, the answer to the write's PUT was lost, or an undo of it was spent.
   */
  lemma LandedWriteOutOfReach(hash: Hash, live: Value, es: seq<Event>, id: Id)
    requires Reaches(hash, live, es) && id in Reached(hash, live, es).entries
    ensures var x := Reached(hash, live, es).entries[id];
            x.replaced.Some? && !x.undone ==>
              (!x.status.Pending? <==> x.status.Expired? || LostAnswer(x) || UndoSpent(x))
  {
    ReachedOk(hash, live, es);
    var s := Reached(hash, live, es);
    var x := s.entries[id];
    assert EntryOk(x, s.live);
    if x.replaced.Some? && !x.undone && !x.status.Pending? && !x.status.Expired? {
      var i :| 0 <= i < |x.reports| && Retires(x.reports[i]);
      assert ReportOk(x, x.reports[i]);
      if x.reports[i].byUndo { assert Spent(x, x.reports[i]); }
    }
  }

  /**
   In every run the write's own verdict retires its entry exactly when its PUT was not answered:
   then the write has landed if the PUT took effect all the same.
   */
  lemma OwnVerdictRetiresIffUnanswered(hash: Hash, live: Value, es: seq<Event>, id: Id, i: nat)
    requires Reaches(hash, live, es) && id in Reached(hash, live, es).entries
    requires var x := Reached(hash, live, es).entries[id]; i < |x.reports| && !x.reports[i].byUndo
    ensures var x := Reached(hash, live, es).entries[id];
            && (x.reports[i].fact.PutAnswered? || !x.status.Pending?)
            && (x.replaced.Some? && Retires(x.reports[i]) <==> x.reports[i].fact == PutErrored(true))
            && (x.replaced.Some? <==> Stores(x.reports[i].fact))
            && (|x.reports| == 1 && !x.status.Expired? ==> (x.status.Pending? <==> x.reports[i].fact.PutAnswered?))
  {
    ReachedOk(hash, live, es);
    OwnReport(Reached(hash, live, es).entries[id], Reached(hash, live, es).live, i);
  }

  lemma OwnReport(x: Entry, live: Value, i: nat)
    requires EntryOk(x, live) && i < |x.reports| && !x.reports[i].byUndo
    ensures x.reports[i].fact.PutAnswered? || !x.status.Pending?
    ensures x.replaced.Some? <==> Stores(x.reports[i].fact)
    ensures |x.reports| == 1 && !x.status.Expired? ==> (x.status.Pending? <==> x.reports[i].fact.PutAnswered?)
  {
    assert ReportOk(x, x.reports[i]);
  }

  /** The last report that retires the entry. */
  predicate Decides(x: Entry, i: int) {
    0 <= i < |x.reports| && Retires(x.reports[i]) && forall j | i < j < |x.reports| :: !Retires(x.reports[j])
  }

  lemma {:induction false} StatusOfLast(x: Entry, reports: seq<Report>) returns (i: nat)
    requires reports <= x.reports && forall j | |reports| <= j < |x.reports| :: !Retires(x.reports[j])
    ensures StatusOf(reports).Pending? ==> forall j | 0 <= j < |x.reports| :: !Retires(x.reports[j])
    ensures !StatusOf(reports).Pending? ==> Decides(x, i) && StatusOf(reports) == Retired(x.reports[i])
    decreases |reports|
  {
    i := 0;
    if reports != [] {
      var n := |reports| - 1;
      assert reports[n] == x.reports[n];
      if Retires(reports[n]) { i := n; } else { i := StatusOfLast(x, reports[..n]); }
    }
  }

  lemma OneDecides(x: Entry, i: int, j: int)
    requires Decides(x, i) && Decides(x, j)
    ensures i == j
  {
  }

  /**
   In every run, the status of an entry that has not expired tells what the last attempt to retire it
   met.  Applied: an undo's read-back showed the prior document.  Conflict: an undo read another
   document than the write left.  Failure: an undo could not read or had its PUT come back as an error,
   or the write itself was stopped or not answered.
   */
  lemma StatusTells(hash: Hash, live: Value, es: seq<Event>, id: Id)
    requires Reaches(hash, live, es) && id in Reached(hash, live, es).entries
    requires !Reached(hash, live, es).entries[id].status.Expired?
    ensures Tells(Reached(hash, live, es).entries[id])
  {
    ReachedOk(hash, live, es);
    EntryTells(Reached(hash, live, es).entries[id], Reached(hash, live, es).live);
  }

  ghost predicate Tells(x: Entry) {
    && (x.status.Pending? <==> forall i | 0 <= i < |x.reports| :: !Retires(x.reports[i]))
    && (x.status.AppliedSuccess? <==>
          exists i | Decides(x, i) :: x.reports[i].byUndo && x.reports[i].fact.PutAnswered? && x.reports[i].fact.shown)
    && (x.status.AppliedConflict? <==> exists i | Decides(x, i) :: x.reports[i].byUndo && x.reports[i].fact.Blocked?)
    && (x.status.AppliedFailure? <==>
          exists i | Decides(x, i) ::
            if x.reports[i].byUndo then x.reports[i].fact.ReadFailed? || x.reports[i].fact.PutErrored?
            else !x.reports[i].fact.PutAnswered?)
  }

  lemma EntryTells(x: Entry, live: Value)
    requires EntryOk(x, live) && !x.status.Expired?
    ensures Tells(x)
  {
    var i := StatusOfLast(x, x.reports);
    if x.status.Pending? {
      assert forall j :: !Decides(x, j);
    } else {
      assert Decides(x, i) && x.status == Retired(x.reports[i]);
      forall j | Decides(x, j) ensures j == i { OneDecides(x, i, j); }
    }
  }

  /****** undos held back while a write is in flight ******/

  /** A run in which no undo starts while a write is in flight, which the program does not check. */
  ghost predicate Gated(hash: Hash, s: State, es: seq<Event>)
    decreases |es|
  {
    es == [] ||
    (Enabled(hash, s, es[0]) ==> (es[0].StartUndo? ==> !s.inFlight) && Gated(hash, Apply(hash, s, es[0]), es[1..]))
  }

  predicate EarlyReport(x: Entry) {
    exists i | 0 <= i < |x.reports| :: x.reports[i].byUndo && x.reports[i].early
  }

  predicate WriteOf(s: State, k: nat, id: Id) {
    k in s.tasks && s.tasks[k].request.Some? && s.tasks[k].id == id
  }

  predicate UndoOf(s: State, k: nat, id: Id) {
    k in s.tasks && s.tasks[k].request.None? && s.tasks[k].id == id
  }

  /** An undo under way, or one that came early, means the entry's write is over. */
  ghost predicate GateInv(s: State) {
    && (forall j, k, id :: WriteOf(s, j, id) ==> !UndoOf(s, k, id))
    && (forall id | id in s.entries && EarlyReport(s.entries[id]) :: s.entries[id].replaced.None?)
    && (forall j, id | WriteOf(s, j, id) && id in s.entries :: !EarlyReport(s.entries[id]))
    && (forall k, id | id in s.entries && UndoOf(s, k, id) && s.tasks[k].early && !s.tasks[k].phase.Starting? ::
          s.entries[id].replaced.None?)
  }

  lemma EarlySame(x: Entry, x': Entry)
    requires x'.reports == x.reports
    ensures EarlyReport(x') == EarlyReport(x)
  {
  }

  lemma EarlyMore(x: Entry, x': Entry, r: Report)
    requires x'.reports == x.reports + [r]
    ensures EarlyReport(x') <==> EarlyReport(x) || (r.byUndo && r.early)
  {
    assert x'.reports[|x.reports|] == r && forall i | 0 <= i < |x.reports| :: x'.reports[i] == x.reports[i];
  }

  lemma GateEntry(hash: Hash, s: State, e: Event, id: Id)
    requires Enabled(hash, s, e) && id in s.entries && !e.StartWrite?
    ensures var s' := Apply(hash, s, e);
            && id in s'.entries
            && (EarlyReport(s'.entries[id]) ==>
                  EarlyReport(s.entries[id]) || (e.Mark? && UndoOf(s, e.task, id) && s.tasks[e.task].early))
            && (s'.entries[id].replaced.Some? ==> s.entries[id].replaced.Some? || (e.Put? && WriteOf(s, e.task, id)))
  {
    var s' := Apply(hash, s, e);
    if e.Mark? && s.tasks[e.task].id == id {
      var t := s.tasks[e.task];
      EarlyMore(s.entries[id], s'.entries[id], Report(t.request.None?, t.early, t.phase.fact));
    } else {
      EarlySame(s.entries[id], s'.entries[id]);
    }
  }

  lemma GateTask(hash: Hash, s: State, e: Event, k: nat)
    requires Enabled(hash, s, e) && k in Apply(hash, s, e).tasks && !e.StartWrite? && !e.StartUndo?
    ensures var t' := Apply(hash, s, e).tasks[k];
            && k in s.tasks && t'.id == s.tasks[k].id && t'.request == s.tasks[k].request
            && (t'.phase.Starting? || (t'.early == s.tasks[k].early && !s.tasks[k].phase.Starting?)
                || (e.Get? && t'.id in s.entries && t'.early == s.entries[t'.id].replaced.None?))
            && (e.Mark? ==> k != e.task)
  {
  }

  lemma GateTasks(hash: Hash, s: State, e: Event)
    requires Enabled(hash, s, e) && !e.StartWrite? && !e.StartUndo?
    ensures var s' := Apply(hash, s, e);
            && s'.entries.Keys == s.entries.Keys
            && forall k, id :: (WriteOf(s', k, id) ==> WriteOf(s, k, id)) && (UndoOf(s', k, id) ==> UndoOf(s, k, id))
  {
    forall k | k in Apply(hash, s, e).tasks ensures k in s.tasks { GateTask(hash, s, e, k); }
  }

  /** A step of tasks already there: nothing starts. */
  lemma GateMoves(hash: Hash, s: State, e: Event)
    requires GateInv(s) && Enabled(hash, s, e) && !e.StartWrite? && !e.StartUndo?
    ensures GateInv(Apply(hash, s, e))
  {
    var s' := Apply(hash, s, e);
    GateTasks(hash, s, e);
    forall id | id in s'.entries && EarlyReport(s'.entries[id]) ensures s'.entries[id].replaced.None? { GateEntry(hash, s, e, id); }
    forall j, id | WriteOf(s', j, id) && id in s'.entries ensures !EarlyReport(s'.entries[id]) { GateEntry(hash, s, e, id); }
    forall k, id | id in s'.entries && UndoOf(s', k, id) && s'.tasks[k].early && !s'.tasks[k].phase.Starting?
      ensures s'.entries[id].replaced.None?
    {
      GateUndo(hash, s, e, k);
    }
  }

  lemma GateUndo(hash: Hash, s: State, e: Event, k: nat)
    requires GateInv(s) && Enabled(hash, s, e) && !e.StartWrite? && !e.StartUndo?
    requires var s' := Apply(hash, s, e);
             k in s'.tasks && s'.tasks[k].id in s.entries && s'.tasks[k].request.None? && s'.tasks[k].early && !s'.tasks[k].phase.Starting?
    ensures var s' := Apply(hash, s, e);
            s'.tasks[k].id in s'.entries && s'.entries[s'.tasks[k].id].replaced.None?
  {
    GateTask(hash, s, e, k);
    var id := s.tasks[k].id;
    GateEntry(hash, s, e, id);
    assert UndoOf(s, k, id);
  }

  lemma GateStarts(hash: Hash, s: State, e: Event)
    requires Inv(s) && GateInv(s) && Enabled(hash, s, e)
    requires e.StartWrite? || (e.StartUndo? && !s.inFlight)
    ensures GateInv(Apply(hash, s, e))
  {
    var s' := Apply(hash, s, e);
    assert e.StartWrite? ==> !EarlyReport(s'.entries[e.id]);
    assert forall k, id :: WriteOf(s', k, id) ==> WriteOf(s, k, id) || (e.StartWrite? && id == e.id);
    assert forall k, id :: UndoOf(s', k, id) ==> UndoOf(s, k, id) || (e.StartUndo? && id == e.id);
    assert forall k, id :: UndoOf(s, k, id) ==> id in s.entries;
    assert forall k, id :: WriteOf(s, k, id) ==> s.inFlight;
  }

  lemma GateStep(hash: Hash, s: State, e: Event)
    requires Inv(s) && GateInv(s) && Enabled(hash, s, e) && (e.StartUndo? ==> !s.inFlight)
    ensures GateInv(Apply(hash, s, e))
  {
    if e.StartWrite? || e.StartUndo? {
      GateStarts(hash, s, e);
    } else {
      GateMoves(hash, s, e);
    }
  }

  /** With undos held back while a write is in flight, none reads the document before its write landed. */
  lemma {:induction false} GatedRunKeepsGate(hash: Hash, s: State, es: seq<Event>)
    requires GoodHash(hash) && Inv(s) && Built(hash, s) && GateInv(s) && Gated(hash, s, es) && Run(hash, s, es).Some?
    ensures GateInv(Run(hash, s, es).value)
    decreases |es|
  {
    if es != [] {
      ApplyKeepsInv(hash, s, es[0]);
      ApplyKeepsBuilt(hash, s, es[0]);
      GateStep(hash, s, es[0]);
      GatedRunKeepsGate(hash, Apply(hash, s, es[0]), es[1..]);
    }
  }

  lemma GatedUndosAreNotEarly(hash: Hash, live: Value, es: seq<Event>, id: Id)
    requires Reaches(hash, live, es) && Gated(hash, Start(live), es) && id in Reached(hash, live, es).entries
    ensures var x := Reached(hash, live, es).entries[id]; x.replaced.Some? ==> !EarlyReport(x)
  {
    GatedRunKeepsGate(hash, Start(live), es);
  }

  /****** with every request answered besides ******/

  predicate Heard(e: Event) {
    (e.Get? ==> !e.fails) && (e.Put? ==> e.answered) && !e.Expire?
  }

  predicate HeardFact(fact: Fact) { !fact.ReadFailed? && !fact.PutErrored? }

  predicate HeardEntry(x: Entry) {
    !x.status.Expired? && forall i | 0 <= i < |x.reports| :: HeardFact(x.reports[i].fact)
  }

  predicate HeardInv(s: State) {
    && (forall id | id in s.entries :: HeardEntry(s.entries[id]))
    && (forall k | k in s.tasks :: s.tasks[k].phase.Reporting? ==> HeardFact(s.tasks[k].phase.fact))
  }

  lemma HeardStep(hash: Hash, s: State, e: Event)
    requires HeardInv(s) && Enabled(hash, s, e) && Heard(e)
    ensures HeardInv(Apply(hash, s, e))
  {
    forall id | id in Apply(hash, s, e).entries ensures HeardEntry(Apply(hash, s, e).entries[id]) {
      HeardEntryStep(hash, s, e, id);
    }
  }

  lemma HeardEntryStep(hash: Hash, s: State, e: Event, id: Id)
    requires HeardInv(s) && Enabled(hash, s, e) && Heard(e) && id in Apply(hash, s, e).entries
    ensures HeardEntry(Apply(hash, s, e).entries[id])
  {
    var s' := Apply(hash, s, e);
    if id in s.entries {
      assert HeardEntry(s.entries[id]);
      if e.Mark? && s.tasks[e.task].id == id {
        assert HeardFact(s.tasks[e.task].phase.fact);
      } else {
        SameReports(hash, s, e, id);
      }
    }
  }

  lemma SameReports(hash: Hash, s: State, e: Event, id: Id)
    requires Enabled(hash, s, e) && Heard(e) && id in s.entries && !(e.Mark? && s.tasks[e.task].id == id)
    ensures var s' := Apply(hash, s, e);
            id in s'.entries && s'.entries[id].reports == s.entries[id].reports && s'.entries[id].status == s.entries[id].status
  {
  }

  lemma {:induction false} HeardRun(hash: Hash, s: State, es: seq<Event>)
    requires HeardInv(s) && Run(hash, s, es).Some? && forall e | e in es :: Heard(e)
    ensures HeardInv(Run(hash, s, es).value)
    decreases |es|
  {
    if es != [] {
      assert Heard(es[0]);
      HeardStep(hash, s, es[0]);
      HeardRun(hash, Apply(hash, s, es[0]), es[1..]);
    }
  }

  /**
   With undos held back, every read answered and every PUT answered (even if discarded): a write that
   landed stays undoable until it is undone or somebody replaces the document.
   */
  lemma UndoStaysInReach(hash: Hash, live: Value, es: seq<Event>, id: Id)
    requires Reaches(hash, live, es) && Gated(hash, Start(live), es) && id in Reached(hash, live, es).entries
    requires forall e | e in es :: Heard(e)
    ensures var x := Reached(hash, live, es).entries[id];
            x.replaced.Some? && !x.undone && !x.changed && x.before != x.after ==>
              x.status.Pending? && Reached(hash, live, es).live == x.after
  {
    ReachedOk(hash, live, es);
    LandedWriteOutOfReach(hash, live, es, id);
    GatedUndosAreNotEarly(hash, live, es, id);
    HeardRun(hash, Start(live), es);
    var x := Reached(hash, live, es).entries[id];
    assert HeardEntry(x) && EntryOk(x, Reached(hash, live, es).live);
    if x.replaced.Some? && !x.undone && !x.changed && x.before != x.after {
      forall i | 0 <= i < |x.reports| ensures HeardFact(x.reports[i].fact) && !(x.reports[i].byUndo && x.reports[i].early) {
      }
    }
  }
}
