/**
 The ways the write and undo protocol can go wrong, each as a concrete request and a concrete run.
 */
module AccessRuns {
  import opened Common
  import opened Json
  import opened Canonical
  import opened AccessRules
  import opened AccessDocument
  import opened AccessWrite
  import opened AccessUndo

  const FIRST := RuleSpec("endpoint/new/*", "*", "read", None, None, None)
  const SECOND := RuleSpec("endpoint/other/*", "*", "read", None, None, None)

  function DocumentOf(rs: Rules): Value { Object(map["configs" := Array(rs)]) }

  /** Adding one rule to the document of `rs`. */
  ghost function AddRule(hash: Hash, rs: Rules, spec: RuleSpec): Request {
    Request(Digest(hash, DocumentOf(rs)), DocumentOf(rs), Add(spec), None, DocumentOf(rs + [NewRule(spec)]))
  }

  lemma AddRuleIsWellBuilt(hash: Hash, rs: Rules, spec: RuleSpec)
    ensures WellBuilt(hash, AddRule(hash, rs, spec))
  {
    var rule := NewRule(spec);
    assert rs[..|rs|] + [rule] + rs[|rs|..] == rs + [rule];
    assert DocumentOf(rs).fields["configs" := Array(rs + [rule])] == DocumentOf(rs + [rule]).fields;
  }

  lemma LengthsDiffer(a: Rules, b: Rules)
    requires |a| != |b|
    ensures DocumentOf(a) != DocumentOf(b)
  {
    assert DocumentOf(a).fields["configs"].items == a && DocumentOf(b).fields["configs"].items == b;
  }

  /** The first rule of an empty document. */
  ghost function AddFirst(hash: Hash): Request { AddRule(hash, [], FIRST) }

  lemma AddFirstIsWellBuilt(hash: Hash)
    ensures WellBuilt(hash, AddFirst(hash)) && AddFirst(hash).previous != AddFirst(hash).after
  {
    AddRuleIsWellBuilt(hash, [], FIRST);
    LengthsDiffer([], [] + [NewRule(FIRST)]);
  }

  function Fresh(r: Request): Entry { Entry(r.previous, r.after, Pending, None, None, false, false, []) }

  function WriteAt(r: Request, phase: Phase): Task { Task(0, Some(r), phase, true) }

  /** One entry, and the tasks there are. */
  function One(live: Value, x: Entry, tasks: map<nat, Task>, inFlight: bool): State {
    State(live, map[0 := x], tasks, inFlight)
  }

  /** From s, the events lead to `end`. */
  ghost predicate Leads(hash: Hash, s: State, es: seq<Event>, end: State) { Run(hash, s, es) == Some(end) }

  lemma Then(hash: Hash, s: State, e: Event, es: seq<Event>, end: State)
    requires Enabled(hash, s, e) && Leads(hash, Apply(hash, s, e), es, end)
    ensures Leads(hash, s, [e] + es, end)
  {
    assert ([e] + es)[1..] == es;
  }

  lemma ThenStart(hash: Hash, r: Request, es: seq<Event>, end: State)
    requires WellBuilt(hash, r) && Leads(hash, One(r.previous, Fresh(r), map[0 := WriteAt(r, Starting)], true), es, end)
    ensures Leads(hash, Start(r.previous), [StartWrite(0, 0, r)] + es, end)
  {
    Then(hash, Start(r.previous), StartWrite(0, 0, r), es, end);
  }

  /** The GET of the write, whatever undos have done to its entry. */
  lemma ThenGet(hash: Hash, r: Request, x: Entry, es: seq<Event>, end: State)
    requires GoodHash(hash) && WellBuilt(hash, r) && x.replaced.None?
    requires Leads(hash, One(r.previous, x, map[0 := WriteAt(r, Putting(r.after, r.previous, None))], true), es, end)
    ensures Leads(hash, One(r.previous, x, map[0 := WriteAt(r, Starting)], true), [Get(0, false, false)] + es, end)
  {
    var s := One(r.previous, x, map[0 := WriteAt(r, Starting)], true);
    PreparedToWrite(hash, r, x);
    GotAs(r.previous, x, WriteAt(r, Starting), true, r.after);
    Then(hash, s, Get(0, false, false), es, end);
  }

  lemma PreparedToWrite(hash: Hash, r: Request, x: Entry)
    requires GoodHash(hash) && WellBuilt(hash, r)
    ensures Prepared(hash, One(r.previous, x, map[0 := WriteAt(r, Starting)], true), 0) == Ok(r.after)
  {
    PreparedIsReviewed(hash, r, r.previous);
  }

  lemma GotAs(live: Value, x: Entry, t: Task, inFlight: bool, body: Value)
    requires t.id == 0 && t.phase.Starting? && t.early && x.replaced.None?
    ensures GetStep(One(live, x, map[0 := t], inFlight), 0, false, false, Ok(body)) ==
            One(live, x, map[0 := t.(phase := Putting(body, live, None))], inFlight)
  {
  }

  /** A PUT of the write, stored or not, answered or not. */
  function Sent(r: Request, x: Entry, answered: bool, stored: bool): State {
    var phase := if answered then Confirming(r.after, stored) else Reporting(Err(NotWritten), PutErrored(stored));
    if stored then
      One(r.after, x.(replaced := Some(r.previous), over := None, changed := false, undone := false), map[0 := WriteAt(r, phase)], true)
    else One(r.previous, x, map[0 := WriteAt(r, phase)], true)
  }

  lemma ThenPut(hash: Hash, r: Request, x: Entry, answered: bool, stored: bool, es: seq<Event>, end: State)
    requires x.replaced.None? && Leads(hash, Sent(r, x, answered, stored), es, end)
    ensures Leads(hash, One(r.previous, x, map[0 := WriteAt(r, Putting(r.after, r.previous, None))], true),
                  [Put(0, answered, stored)] + es, end)
  {
    SentByPut(r, x, answered, stored);
    Then(hash, One(r.previous, x, map[0 := WriteAt(r, Putting(r.after, r.previous, None))], true), Put(0, answered, stored), es, end);
  }

  lemma SentByPut(r: Request, x: Entry, answered: bool, stored: bool)
    requires x.replaced.None?
    ensures PutStep(One(r.previous, x, map[0 := WriteAt(r, Putting(r.after, r.previous, None))], true), 0, answered, stored)
         == Sent(r, x, answered, stored)
  {
    var t := WriteAt(r, Putting(r.after, r.previous, None));
    ReplacedOne(r.previous, x, t, true, r.after);
  }

  lemma ReplacedOne(live: Value, x: Entry, t: Task, inFlight: bool, document: Value)
    ensures Replaced(One(live, x, map[0 := t], inFlight), document) ==
            One(document, Noted(x, document != live), map[0 := NotedTask(t, live, document)], inFlight)
  {
    var s := One(live, x, map[0 := t], inFlight);
    ReplacedShape(s, document);
    assert Replaced(s, document).entries == map[0 := Noted(x, document != live)];
    assert Replaced(s, document).tasks == map[0 := NotedTask(t, live, document)];
  }

  lemma ThenReadBack(hash: Hash, live: Value, x: Entry, t: Task, body: Value, stored: bool, inFlight: bool, es: seq<Event>, end: State)
    requires t.id == 0 && t.phase == Confirming(body, stored)
    requires var shown := live == body;
             Leads(hash, One(live, x, map[0 := t.(phase :=
               Reporting(if shown then Ok(()) else Err(AcceptedButUnconfirmed), PutAnswered(stored, shown)))], inFlight), es, end)
    ensures Leads(hash, One(live, x, map[0 := t], inFlight), [ReadBack(0, false)] + es, end)
  {
    ReadBackOne(live, x, t, body, stored, inFlight);
    Then(hash, One(live, x, map[0 := t], inFlight), ReadBack(0, false), es, end);
  }

  lemma ReadBackOne(live: Value, x: Entry, t: Task, body: Value, stored: bool, inFlight: bool)
    requires t.id == 0 && t.phase == Confirming(body, stored)
    ensures var shown := live == body;
            ReadBackStep(One(live, x, map[0 := t], inFlight), 0, false) == One(live, x, map[0 := t.(phase :=
              Reporting(if shown then Ok(()) else Err(AcceptedButUnconfirmed), PutAnswered(stored, shown)))], inFlight)
  {
  }

  function MarkedAs(x: Entry, t: Task): Entry
    requires t.phase.Reporting?
  {
    var status := if t.request.Some? then UndoDisposition(t.phase.verdict) else UndoResultDisposition(t.phase.verdict);
    x.(status := if status.Some? then status.value else x.status,
       reports := x.reports + [Report(t.request.None?, t.early, t.phase.fact)])
  }

  lemma ThenMark(hash: Hash, live: Value, x: Entry, t: Task, inFlight: bool, es: seq<Event>, end: State)
    requires t.id == 0 && t.phase.Reporting?
    requires Leads(hash, One(live, MarkedAs(x, t), map[], inFlight && t.request.None?), es, end)
    ensures Leads(hash, One(live, x, map[0 := t], inFlight), [Mark(0)] + es, end)
  {
    var s := One(live, x, map[0 := t], inFlight);
    assert MarkStep(s, 0) == One(live, MarkedAs(x, t), map[], inFlight && t.request.None?);
    Then(hash, s, Mark(0), es, end);
  }

  /**
   The write took effect, its answer was lost, and the error retired the entry: the document is the
   written one and nobody else was there, but its undo is out of reach.
   */
  lemma LostAnswerLosesTheUndo(hash: Hash) returns (r: Request, es: seq<Event>)
    requires GoodHash(hash)
    ensures WellBuilt(hash, r) && r.previous != r.after
    ensures forall e | e in es :: !e.Foreign? && !e.StartUndo?
    ensures Reaches(hash, r.previous, es)
    ensures var s := Reached(hash, r.previous, es);
            && s.live == r.after
            && s.entries == map[0 := Entry(r.previous, r.after, AppliedFailure, Some(r.previous), None, false, false,
                                           [Report(false, true, PutErrored(true))])]
  {
    r := AddFirst(hash);
    AddFirstIsWellBuilt(hash);
    es := LostAnswerRun(hash, r);
  }

  lemma LostAnswerRun(hash: Hash, r: Request) returns (es: seq<Event>)
    requires GoodHash(hash) && WellBuilt(hash, r)
    ensures forall e | e in es :: !e.Foreign? && !e.StartUndo?
    ensures Leads(hash, Start(r.previous), es,
                  One(r.after, Entry(r.previous, r.after, AppliedFailure, Some(r.previous), None, false, false,
                                     [Report(false, true, PutErrored(true))]), map[], false))
  {
    var x := Fresh(r).(replaced := Some(r.previous));
    var t := WriteAt(r, Reporting(Err(NotWritten), PutErrored(true)));
    var end := One(r.after, MarkedAs(x, t), map[], false);
    assert [] + [Report(false, true, PutErrored(true))] == [Report(false, true, PutErrored(true))];
    ThenMark(hash, r.after, x, t, true, [], end);
    ThenPut(hash, r, Fresh(r), false, true, [Mark(0)] + [], end);
    ThenGet(hash, r, Fresh(r), [Put(0, false, true)] + ([Mark(0)] + []), end);
    es := [Get(0, false, false)] + ([Put(0, false, true)] + ([Mark(0)] + []));
    ThenStart(hash, r, es, end);
    es := [StartWrite(0, 0, r)] + es;
  }

  /****** an undo before the write ******/

  function UndoAt(phase: Phase): Task { Task(0, None, phase, true) }

  function Two(r: Request, x: Entry, undo: Phase): State {
    One(r.previous, x, map[0 := WriteAt(r, Starting), 1 := UndoAt(undo)], true)
  }

  /** An undo of a write that has not read the document yet: it meets the old one, and says "conflict". */
  lemma ThenEarlyUndo(hash: Hash, r: Request, es: seq<Event>, end: State)
    requires r.previous != r.after
    requires Leads(hash, One(r.previous, Spoilt(r), map[0 := WriteAt(r, Starting)], true), es, end)
    ensures Leads(hash, One(r.previous, Fresh(r), map[0 := WriteAt(r, Starting)], true),
                  [StartUndo(0, 1)] + ([Get(1, false, false)] + ([Mark(1)] + es)), end)
  {
    var x := Fresh(r);
    var blocked := Reporting(Err(Stale), Blocked);
    assert [] + [Report(true, true, Blocked)] == [Report(true, true, Blocked)];
    assert MarkStep(Two(r, x, blocked), 1) == One(r.previous, Spoilt(r), map[0 := WriteAt(r, Starting)], true);
    Then(hash, Two(r, x, blocked), Mark(1), es, end);
    assert GetStep(Two(r, x, Starting), 1, false, false, Err(Stale)) == Two(r, x, blocked);
    Then(hash, Two(r, x, Starting), Get(1, false, false), [Mark(1)] + es, end);
    ThenUndo(hash, One(r.previous, x, map[0 := WriteAt(r, Starting)], true), Two(r, x, Starting), 1,
             [Get(1, false, false)] + ([Mark(1)] + es), end);
  }

  lemma ThenUndo(hash: Hash, s: State, s': State, task: nat, es: seq<Event>, end: State)
    requires 0 in s.entries && s.entries[0].status.Pending? && task !in s.tasks
    requires s' == s.(tasks := s.tasks[task := UndoAt(Starting)]) && Leads(hash, s', es, end)
    ensures Leads(hash, s, [StartUndo(0, task)] + es, end)
  {
    Then(hash, s, StartUndo(0, task), es, end);
  }

  function Spoilt(r: Request): Entry {
    Fresh(r).(status := AppliedConflict, reports := [Report(true, true, Blocked)])
  }

  /**
   An undo asked for while the write is in flight reads the document before the write does, and its
   "conflict" retires the entry.  Then the write lands and is confirmed: its undo is out of reach,
   every request was answered, and nobody else was there.
   */
  lemma EarlyUndoLosesTheUndo(hash: Hash) returns (r: Request, es: seq<Event>)
    requires GoodHash(hash)
    ensures WellBuilt(hash, r) && r.previous != r.after
    ensures Smooth(es) && Reaches(hash, r.previous, es)
    ensures var s := Reached(hash, r.previous, es);
            && s.live == r.after
            && s.entries == map[0 := Entry(r.previous, r.after, AppliedConflict, Some(r.previous), None, false, false,
                                           [Report(true, true, Blocked), Report(false, true, PutAnswered(true, true))])]
  {
    r := AddFirst(hash);
    AddFirstIsWellBuilt(hash);
    es := EarlyUndoRun(hash, r);
    assert [Report(true, true, Blocked)] + [Report(false, true, PutAnswered(true, true))]
        == [Report(true, true, Blocked), Report(false, true, PutAnswered(true, true))];
  }

  /** Every request is answered and takes effect, and nobody else is there. */
  predicate Smooth(es: seq<Event>) {
    forall e | e in es :: !e.Foreign? && (e.Put? ==> e.answered && e.stored) && (e.Get? || e.ReadBack? ==> !e.fails)
  }

  lemma SmoothMore(e: Event, es: seq<Event>)
    requires Smooth(es) && Smooth([e])
    ensures Smooth([e] + es)
  {
  }

  /** The rest of a write that nothing goes wrong with. */
  lemma WriteLands(hash: Hash, r: Request, x: Entry) returns (es: seq<Event>)
    requires GoodHash(hash) && WellBuilt(hash, r) && x.replaced.None?
    ensures Smooth(es)
    ensures Leads(hash, One(r.previous, x, map[0 := WriteAt(r, Starting)], true), es,
                  One(r.after, x.(replaced := Some(r.previous), over := None, changed := false, undone := false,
                                  reports := x.reports + [Report(false, true, PutAnswered(true, true))]), map[], false))
  {
    var y := x.(replaced := Some(r.previous), over := None, changed := false, undone := false);
    var t := WriteAt(r, Reporting(Ok(()), PutAnswered(true, true)));
    var end := One(r.after, MarkedAs(y, t), map[], false);
    ThenMark(hash, r.after, y, t, true, [], end);
    ThenReadBack(hash, r.after, y, WriteAt(r, Confirming(r.after, true)), r.after, true, true, [Mark(0)] + [], end);
    ThenPut(hash, r, x, true, true, [ReadBack(0, false)] + ([Mark(0)] + []), end);
    es := [Put(0, true, true)] + ([ReadBack(0, false)] + ([Mark(0)] + []));
    ThenGet(hash, r, x, es, end);
    es := [Get(0, false, false)] + es;
  }

  lemma EarlyUndoRun(hash: Hash, r: Request) returns (es: seq<Event>)
    requires GoodHash(hash) && WellBuilt(hash, r) && r.previous != r.after
    ensures Smooth(es)
    ensures Leads(hash, Start(r.previous), es, One(r.after, Spoilt(r).(replaced := Some(r.previous),
                    reports := [Report(true, true, Blocked)] + [Report(false, true, PutAnswered(true, true))]), map[], false))
  {
    var end := One(r.after, Spoilt(r).(replaced := Some(r.previous),
                     reports := [Report(true, true, Blocked)] + [Report(false, true, PutAnswered(true, true))]), map[], false);
    es := WriteLands(hash, r, Spoilt(r));
    es := EarlyUndoThen(hash, r, es, end);
    ThenStart(hash, r, es, end);
    SmoothMore(StartWrite(0, 0, r), es);
    es := [StartWrite(0, 0, r)] + es;
  }

  lemma EarlyUndoThen(hash: Hash, r: Request, es: seq<Event>, end: State) returns (all: seq<Event>)
    requires r.previous != r.after && Smooth(es)
    requires Leads(hash, One(r.previous, Spoilt(r), map[0 := WriteAt(r, Starting)], true), es, end)
    ensures Smooth(all) && Leads(hash, One(r.previous, Fresh(r), map[0 := WriteAt(r, Starting)], true), all, end)
  {
    ThenEarlyUndo(hash, r, es, end);
    SmoothMore(Mark(1), es);
    SmoothMore(Get(1, false, false), [Mark(1)] + es);
    SmoothMore(StartUndo(0, 1), [Get(1, false, false)] + ([Mark(1)] + es));
    all := [StartUndo(0, 1)] + ([Get(1, false, false)] + ([Mark(1)] + es));
  }

  /****** a write answered and discarded ******/

  function Discarded(r: Request): Entry {
    Fresh(r).(reports := [Report(false, true, PutAnswered(false, false))])
  }

  /** The write is answered, and the document is still the old one: the entry stays, for nothing. */
  lemma ThenDiscarded(hash: Hash, r: Request, es: seq<Event>, end: State)
    requires GoodHash(hash) && WellBuilt(hash, r) && r.previous != r.after
    requires Leads(hash, One(r.previous, Discarded(r), map[], false), es, end)
    ensures Leads(hash, Start(r.previous), [StartWrite(0, 0, r)] + ([Get(0, false, false)] +
                    ([Put(0, true, false)] + ([ReadBack(0, false)] + ([Mark(0)] + es)))), end)
  {
    ThenUnconfirmed(hash, r, es, end);
    var es1 := [ReadBack(0, false)] + ([Mark(0)] + es);
    ThenPut(hash, r, Fresh(r), true, false, es1, end);
    ThenGet(hash, r, Fresh(r), [Put(0, true, false)] + es1, end);
    ThenStart(hash, r, [Get(0, false, false)] + ([Put(0, true, false)] + es1), end);
  }

  lemma ThenUnconfirmed(hash: Hash, r: Request, es: seq<Event>, end: State)
    requires r.previous != r.after && Leads(hash, One(r.previous, Discarded(r), map[], false), es, end)
    ensures Leads(hash, Sent(r, Fresh(r), true, false), [ReadBack(0, false)] + ([Mark(0)] + es), end)
  {
    var x := Fresh(r);
    var t := WriteAt(r, Reporting(Err(AcceptedButUnconfirmed), PutAnswered(false, false)));
    assert [] + [Report(false, true, PutAnswered(false, false))] == [Report(false, true, PutAnswered(false, false))];
    assert MarkedAs(x, t) == Discarded(r);
    ThenMark(hash, r.previous, x, t, true, es, end);
    ThenReadBack(hash, r.previous, x, WriteAt(r, Confirming(r.after, false)), r.after, false, true, [Mark(0)] + es, end);
  }

  /** Once another writer puts the same result, the undo puts back the prior document over it. */
  lemma ThenUndone(hash: Hash, r: Request, x: Entry) returns (es: seq<Event>)
    requires r.previous != r.after && x == Discarded(r)
    ensures Leads(hash, One(r.previous, x, map[], false), es,
                  One(r.previous, x.(status := AppliedSuccess,
                                     reports := x.reports + [Report(true, true, PutAnswered(true, true))]), map[], false))
  {
    var t := UndoAt(Reporting(Ok(()), PutAnswered(true, true)));
    var end := One(r.previous, MarkedAs(x, t), map[], false);
    ThenMark(hash, r.previous, x, t, false, [], end);
    var es1 := [Mark(0)] + [];
    ThenReadBack(hash, r.previous, x, UndoAt(Confirming(r.previous, true)), r.previous, true, false, es1, end);
    var es2 := [ReadBack(0, false)] + es1;
    ThenUndoPut(hash, r, x, es2, end);
    es := [Put(0, true, true)] + es2;
    ThenUndoStarts(hash, r, x, es, end);
    es := [StartUndo(0, 0)] + ([Get(0, false, false)] + es);
    ThenForeign(hash, r, x, es, end);
    es := [Foreign(r.after)] + es;
  }

  lemma ThenUndoStarts(hash: Hash, r: Request, x: Entry, es: seq<Event>, end: State)
    requires x == Discarded(r)
    requires Leads(hash, One(r.after, x, map[0 := UndoAt(Putting(r.previous, r.after, None))], false), es, end)
    ensures Leads(hash, One(r.after, x, map[], false), [StartUndo(0, 0)] + ([Get(0, false, false)] + es), end)
  {
    var s := One(r.after, x, map[0 := UndoAt(Starting)], false);
    GotAs(r.after, x, UndoAt(Starting), false, r.previous);
    Then(hash, s, Get(0, false, false), es, end);
    ThenUndo(hash, One(r.after, x, map[], false), s, 0, [Get(0, false, false)] + es, end);
  }

  lemma ThenForeign(hash: Hash, r: Request, x: Entry, es: seq<Event>, end: State)
    requires x.replaced.None? && Leads(hash, One(r.after, x, map[], false), es, end)
    ensures Leads(hash, One(r.previous, x, map[], false), [Foreign(r.after)] + es, end)
  {
    var s := One(r.previous, x, map[], false);
    ReplacedShape(s, r.after);
    assert Replaced(s, r.after).entries == map[0 := x] && Replaced(s, r.after).tasks == map[];
    Then(hash, s, Foreign(r.after), es, end);
  }

  lemma ThenUndoPut(hash: Hash, r: Request, x: Entry, es: seq<Event>, end: State)
    requires x.replaced.None? && !x.undone
    requires Leads(hash, One(r.previous, x, map[0 := UndoAt(Confirming(r.previous, true))], false), es, end)
    ensures Leads(hash, One(r.after, x, map[0 := UndoAt(Putting(r.previous, r.after, None))], false), [Put(0, true, true)] + es, end)
  {
    UndoneByPut(r, x);
    Then(hash, One(r.after, x, map[0 := UndoAt(Putting(r.previous, r.after, None))], false), Put(0, true, true), es, end);
  }

  lemma UndoneByPut(r: Request, x: Entry)
    requires x.replaced.None? && !x.undone
    ensures PutStep(One(r.after, x, map[0 := UndoAt(Putting(r.previous, r.after, None))], false), 0, true, true)
         == One(r.previous, x, map[0 := UndoAt(Confirming(r.previous, true))], false)
  {
    ReplacedOne(r.after, x, UndoAt(Putting(r.previous, r.after, None)), false, r.previous);
  }

  /**
   "Accepted but unconfirmed" does not mean the write is there: a PUT may be answered and discarded,
   and the entry stays pending.  Its undo may then report success over a document somebody else put,
   restoring what this write never replaced.
   */
  lemma DiscardedWriteUndone(hash: Hash) returns (r: Request, unconfirmed: seq<Event>, undone: seq<Event>)
    requires GoodHash(hash)
    ensures WellBuilt(hash, r) && r.previous != r.after
    ensures Reaches(hash, r.previous, unconfirmed)
    ensures var s := Reached(hash, r.previous, unconfirmed);
            && s.live == r.previous && s.tasks == map[]
            && s.entries == map[0 := Entry(r.previous, r.after, Pending, None, None, false, false,
                                           [Report(false, true, PutAnswered(false, false))])]
    ensures unconfirmed <= undone && Reaches(hash, r.previous, undone)
    ensures var s := Reached(hash, r.previous, undone);
            && s.live == r.previous && 0 in s.entries
            && s.entries[0].status.AppliedSuccess? && s.entries[0].replaced.None? && s.entries[0].before == s.live
  {
    r := AddFirst(hash);
    AddFirstIsWellBuilt(hash);
    unconfirmed, undone := DiscardedRuns(hash, r);
  }

  lemma Nested<T>(a: T, b: T, c: T, d: T, es: seq<T>)
    ensures [a] + ([b] + ([c] + ([d] + es))) == [a, b, c, d] + es
  {
  }

  lemma DiscardedRuns(hash: Hash, r: Request) returns (unconfirmed: seq<Event>, undone: seq<Event>)
    requires GoodHash(hash) && WellBuilt(hash, r) && r.previous != r.after
    ensures unconfirmed <= undone
    ensures Leads(hash, Start(r.previous), unconfirmed, One(r.previous, Discarded(r), map[], false))
    ensures Leads(hash, Start(r.previous), undone,
                  One(r.previous, Discarded(r).(status := AppliedSuccess,
                        reports := Discarded(r).reports + [Report(true, true, PutAnswered(true, true))]), map[], false))
  {
    var x := Discarded(r);
    ThenDiscarded(hash, r, [], One(r.previous, x, map[], false));
    Nested(StartWrite(0, 0, r), Get(0, false, false), Put(0, true, false), ReadBack(0, false), [Mark(0)] + []);
    unconfirmed := [StartWrite(0, 0, r)] + ([Get(0, false, false)] + ([Put(0, true, false)] + ([ReadBack(0, false)] + ([Mark(0)] + []))));
    var es := ThenUndone(hash, r, x);
    ThenDiscarded(hash, r, es, One(r.previous, x.(status := AppliedSuccess,
                                                  reports := x.reports + [Report(true, true, PutAnswered(true, true))]), map[], false));
    Nested(StartWrite(0, 0, r), Get(0, false, false), Put(0, true, false), ReadBack(0, false), [Mark(0)] + es);
    undone := [StartWrite(0, 0, r)] + ([Get(0, false, false)] + ([Put(0, true, false)] + ([ReadBack(0, false)] + ([Mark(0)] + es))));
  }

  /****** a write and an undo at once ******/

  /** And then the second. */
  ghost function AddSecond(hash: Hash): Request { AddRule(hash, [] + [NewRule(FIRST)], SECOND) }

  lemma AddBoth(hash: Hash)
    ensures TwoWrites(hash, AddFirst(hash), AddSecond(hash))
  {
    AddFirstIsWellBuilt(hash);
    AddRuleIsWellBuilt(hash, [] + [NewRule(FIRST)], SECOND);
    LengthsDiffer([] + [NewRule(FIRST)], [] + [NewRule(FIRST)] + [NewRule(SECOND)]);
    LengthsDiffer([], [] + [NewRule(FIRST)] + [NewRule(SECOND)]);
  }

  /** The first write once it has landed and its verdict is marked, and nothing has happened since. */
  function Settled(r: Request): Entry {
    Fresh(r).(replaced := Some(r.previous), reports := [] + [Report(false, true, PutAnswered(true, true))])
  }

  /** The undo of the first write, as task 1, and the second write, as task 0. */
  function Both(live: Value, x0: Entry, x1: Entry, r1: Request, undo: Phase, write: Phase): State {
    State(live, map[0 := x0, 1 := x1], map[0 := Task(1, Some(r1), write, true), 1 := Task(0, None, undo, false)], true)
  }

  function Undoing(live: Value, x0: Entry, undo: Phase): State {
    State(live, map[0 := x0], map[1 := Task(0, None, undo, false)], false)
  }

  /** Requests of two writes made one after the other. */
  ghost predicate TwoWrites(hash: Hash, r0: Request, r1: Request) {
    && WellBuilt(hash, r0) && WellBuilt(hash, r1) && r1.previous == r0.after
    && r0.previous != r0.after && r1.after != r1.previous && r1.after != r0.previous
  }

  lemma {:induction false} Chain(hash: Hash, s: State, es: seq<Event>, mid: State, more: seq<Event>, end: State)
    requires Leads(hash, s, es, mid) && Leads(hash, mid, more, end)
    ensures Leads(hash, s, es + more, end)
    decreases |es|
  {
    if es == [] {
      assert es + more == more;
    } else {
      Chain(hash, Apply(hash, s, es[0]), es[1..], mid, more, end);
      assert (es + more)[1..] == es[1..] + more;
    }
  }

  lemma ThenUndoGets(hash: Hash, r0: Request, x0: Entry, es: seq<Event>, end: State)
    requires x0 == Settled(r0) && Leads(hash, Undoing(r0.after, x0, Putting(r0.previous, r0.after, None)), es, end)
    ensures Leads(hash, One(r0.after, x0, map[], false), [StartUndo(0, 1)] + ([Get(1, false, false)] + es), end)
  {
    var started := One(r0.after, x0, map[1 := UndoAt(Starting)], false);
    assert GetStep(started, 1, false, false, Ok(r0.previous)) == Undoing(r0.after, x0, Putting(r0.previous, r0.after, None));
    Then(hash, started, Get(1, false, false), es, end);
    ThenUndo(hash, One(r0.after, x0, map[], false), started, 1, [Get(1, false, false)] + es, end);
  }

  lemma ThenWriteGets(hash: Hash, x0: Entry, r1: Request, undo: Phase, es: seq<Event>, end: State)
    requires GoodHash(hash) && WellBuilt(hash, r1)
    requires Leads(hash, Both(r1.previous, x0, Fresh(r1), r1, undo, Putting(r1.after, r1.previous, None)), es, end)
    ensures Leads(hash, Undoing(r1.previous, x0, undo), [StartWrite(1, 0, r1)] + ([Get(0, false, false)] + es), end)
  {
    var started := Both(r1.previous, x0, Fresh(r1), r1, undo, Starting);
    SecondIsPrepared(hash, x0, r1, undo);
    SecondGot(x0, r1, undo);
    Then(hash, started, Get(0, false, false), es, end);
    ThenSecondStarts(hash, x0, r1, undo, [Get(0, false, false)] + es, end);
  }

  lemma SecondIsPrepared(hash: Hash, x0: Entry, r1: Request, undo: Phase)
    requires GoodHash(hash) && WellBuilt(hash, r1)
    ensures Prepared(hash, Both(r1.previous, x0, Fresh(r1), r1, undo, Starting), 0) == Ok(r1.after)
  {
    PreparedIsReviewed(hash, r1, r1.previous);
  }

  lemma SecondGot(x0: Entry, r1: Request, undo: Phase)
    ensures GetStep(Both(r1.previous, x0, Fresh(r1), r1, undo, Starting), 0, false, false, Ok(r1.after)) ==
            Both(r1.previous, x0, Fresh(r1), r1, undo, Putting(r1.after, r1.previous, None))
  {
  }

  lemma ThenSecondStarts(hash: Hash, x0: Entry, r1: Request, undo: Phase, es: seq<Event>, end: State)
    requires WellBuilt(hash, r1) && Leads(hash, Both(r1.previous, x0, Fresh(r1), r1, undo, Starting), es, end)
    ensures Leads(hash, Undoing(r1.previous, x0, undo), [StartWrite(1, 0, r1)] + es, end)
  {
    var s := Undoing(r1.previous, x0, undo);
    assert s.entries[1 := Fresh(r1)] == map[0 := x0, 1 := Fresh(r1)];
    assert s.tasks[0 := Task(1, Some(r1), Starting, true)]
        == map[0 := Task(1, Some(r1), Starting, true), 1 := Task(0, None, undo, false)];
    Then(hash, s, StartWrite(1, 0, r1), es, end);
  }

  /** Both have read the same document, and neither has put its own. */
  lemma BothHaveRead(hash: Hash, r0: Request, r1: Request, es: seq<Event>, end: State) returns (all: seq<Event>)
    requires GoodHash(hash) && TwoWrites(hash, r0, r1) && Smooth(es)
    requires Leads(hash, Both(r0.after, Settled(r0), Fresh(r1), r1, Putting(r0.previous, r0.after, None),
                              Putting(r1.after, r1.previous, None)), es, end)
    ensures Smooth(all) && Leads(hash, Start(r0.previous), all, end)
  {
    var undo := Putting(r0.previous, r0.after, None);
    ThenWriteGets(hash, Settled(r0), r1, undo, es, end);
    SmoothMore(Get(0, false, false), es);
    SmoothMore(StartWrite(1, 0, r1), [Get(0, false, false)] + es);
    var es1 := [StartWrite(1, 0, r1)] + ([Get(0, false, false)] + es);
    ThenUndoGets(hash, r0, Settled(r0), es1, end);
    SmoothMore(Get(1, false, false), es1);
    SmoothMore(StartUndo(0, 1), [Get(1, false, false)] + es1);
    all := AfterFirst(hash, r0, [StartUndo(0, 1)] + ([Get(1, false, false)] + es1), end);
  }

  lemma AfterFirst(hash: Hash, r0: Request, es: seq<Event>, end: State) returns (all: seq<Event>)
    requires GoodHash(hash) && WellBuilt(hash, r0) && Smooth(es)
    requires Leads(hash, One(r0.after, Settled(r0), map[], false), es, end)
    ensures Smooth(all) && Leads(hash, Start(r0.previous), all, end)
  {
    var first := WriteLands(hash, r0, Fresh(r0));
    Chain(hash, One(r0.previous, Fresh(r0), map[0 := WriteAt(r0, Starting)], true), first,
          One(r0.after, Settled(r0), map[], false), es, end);
    ThenStart(hash, r0, first + es, end);
    SmoothMore(StartWrite(0, 0, r0), first + es);
    all := [StartWrite(0, 0, r0)] + (first + es);
  }

  lemma ReplacedTwo(s: State, document: Value)
    requires document != s.live && s.entries.Keys == {0, 1} && s.tasks.Keys == {0, 1}
    ensures Replaced(s, document) ==
            State(document, map[0 := Noted(s.entries[0], true), 1 := Noted(s.entries[1], true)],
                  map[0 := Overtaken(s.tasks[0], document), 1 := Overtaken(s.tasks[1], document)], s.inFlight)
  {
    ReplacedShape(s, document);
    assert Replaced(s, document).entries == map[0 := Noted(s.entries[0], true), 1 := Noted(s.entries[1], true)];
    assert Replaced(s, document).tasks == map[0 := Overtaken(s.tasks[0], document), 1 := Overtaken(s.tasks[1], document)];
  }

  /** A phase with the document replaced. */
  function Late(phase: Phase, document: Value): Phase {
    if phase.Putting? then phase.(latest := Some(document)) else phase
  }

  lemma UndoPut(live: Value, x0: Entry, x1: Entry, r1: Request, undo: Phase, write: Phase)
    requires undo.Putting? && undo.body != live && x0.replaced.Some?
    ensures PutStep(Both(live, x0, x1, r1, undo, write), 1, true, true) ==
            Both(undo.body, x0.(changed := true, undone := true), Noted(x1, true), r1,
                 Confirming(undo.body, true), Late(write, undo.body))
  {
    var t := Task(0, None, undo, false);
    ReplacedTwo(Both(live, x0, x1, r1, undo, write), undo.body);
    StepTwo(undo.body, x0.(changed := true), Noted(x1, true), Task(1, Some(r1), Late(write, undo.body), true),
            Overtaken(t, undo.body), t.(phase := Confirming(undo.body, true)), x0.(changed := true, undone := true));
  }

  lemma StepTwo(live: Value, x0: Entry, x1: Entry, t0: Task, t1: Task, t1': Task, x0': Entry)
    requires t1'.id == 0
    ensures Step(State(live, map[0 := x0, 1 := x1], map[0 := t0, 1 := t1], true), 1, t1', x0') ==
            State(live, map[0 := x0', 1 := x1], map[0 := t0, 1 := t1'], true)
  {
  }

  lemma WritePut(live: Value, x0: Entry, x1: Entry, r1: Request, undo: Phase, write: Phase)
    requires write.Putting? && write.body != live && x0.replaced.Some? && x1.replaced.None?
    ensures PutStep(Both(live, x0, x1, r1, undo, write), 0, true, true) ==
            Both(write.body, x0.(changed := true),
                 x1.(replaced := Some(live), over := write.latest, changed := false, undone := false), r1,
                 Late(undo, write.body), Confirming(write.body, true))
  {
    var t := Task(1, Some(r1), write, true);
    ReplacedTwo(Both(live, x0, x1, r1, undo, write), write.body);
    StepFirst(write.body, x0.(changed := true), x1, Overtaken(t, write.body), Task(0, None, Late(undo, write.body), false),
              t.(phase := Confirming(write.body, true)), Landed(x1, t, live));
  }

  lemma StepFirst(live: Value, x0: Entry, x1: Entry, t0: Task, t1: Task, t0': Task, x1': Entry)
    requires t0'.id == 1
    ensures Step(State(live, map[0 := x0, 1 := x1], map[0 := t0, 1 := t1], true), 0, t0', x1') ==
            State(live, map[0 := x0, 1 := x1'], map[0 := t0', 1 := t1], true)
  {
  }

  /** The undo's PUT, with the write at any phase. */
  lemma ThenUndoPuts(hash: Hash, live: Value, x0: Entry, x1: Entry, r1: Request, undo: Phase, write: Phase, es: seq<Event>, end: State)
    requires undo.Putting? && undo.body != live && x0.replaced.Some?
    requires Leads(hash, Both(undo.body, x0.(changed := true, undone := true), Noted(x1, true), r1,
                              Confirming(undo.body, true), Late(write, undo.body)), es, end)
    ensures Leads(hash, Both(live, x0, x1, r1, undo, write), [Put(1, true, true)] + es, end)
  {
    UndoPut(live, x0, x1, r1, undo, write);
    Then(hash, Both(live, x0, x1, r1, undo, write), Put(1, true, true), es, end);
  }

  /** The write's PUT, with the undo at any phase. */
  lemma ThenWritePuts(hash: Hash, live: Value, x0: Entry, x1: Entry, r1: Request, undo: Phase, write: Phase, es: seq<Event>, end: State)
    requires write.Putting? && write.body != live && x0.replaced.Some? && x1.replaced.None?
    requires Leads(hash, Both(write.body, x0.(changed := true),
                              x1.(replaced := Some(live), over := write.latest, changed := false, undone := false), r1,
                              Late(undo, write.body), Confirming(write.body, true)), es, end)
    ensures Leads(hash, Both(live, x0, x1, r1, undo, write), [Put(0, true, true)] + es, end)
  {
    WritePut(live, x0, x1, r1, undo, write);
    Then(hash, Both(live, x0, x1, r1, undo, write), Put(0, true, true), es, end);
  }

  /** The write's read-back shows its result, and its verdict is marked. */
  lemma ThenWriteIsConfirmed(hash: Hash, x0: Entry, x1: Entry, r1: Request, undo: Phase, es: seq<Event>, end: State)
    requires Leads(hash, State(r1.after, map[0 := x0, 1 := x1.(reports := x1.reports + [Report(false, true, PutAnswered(true, true))])],
                               map[1 := Task(0, None, undo, false)], false), es, end)
    ensures Leads(hash, Both(r1.after, x0, x1, r1, undo, Confirming(r1.after, true)), [ReadBack(0, false)] + ([Mark(0)] + es), end)
  {
    var s := Both(r1.after, x0, x1, r1, undo, Confirming(r1.after, true));
    var s' := Both(r1.after, x0, x1, r1, undo, Reporting(Ok(()), PutAnswered(true, true)));
    ShownTwo(x0, x1, r1, undo);
    MarkedTwo(x0, x1, r1, undo);
    Then(hash, s', Mark(0), es, end);
    Then(hash, s, ReadBack(0, false), [Mark(0)] + es, end);
  }

  lemma ShownTwo(x0: Entry, x1: Entry, r1: Request, undo: Phase)
    ensures ReadBackStep(Both(r1.after, x0, x1, r1, undo, Confirming(r1.after, true)), 0, false)
         == Both(r1.after, x0, x1, r1, undo, Reporting(Ok(()), PutAnswered(true, true)))
  {
    StepFirst(r1.after, x0, x1, Task(1, Some(r1), Confirming(r1.after, true), true), Task(0, None, undo, false),
              Task(1, Some(r1), Reporting(Ok(()), PutAnswered(true, true)), true), x1);
  }

  lemma MarkedTwo(x0: Entry, x1: Entry, r1: Request, undo: Phase)
    ensures MarkStep(Both(r1.after, x0, x1, r1, undo, Reporting(Ok(()), PutAnswered(true, true))), 0) ==
            State(r1.after, map[0 := x0, 1 := x1.(reports := x1.reports + [Report(false, true, PutAnswered(true, true))])],
                  map[1 := Task(0, None, undo, false)], false)
  {
  }

  /** The second write's entry once it is confirmed. */
  function Confirmed(r1: Request, over: Option<Value>, replaced: Value, changed: bool): Entry {
    Fresh(r1).(replaced := Some(replaced), over := over, changed := changed,
               reports := [] + [Report(false, true, PutAnswered(true, true))])
  }

  /**
   The undo of one write and the next write read the same document, and the undo's PUT comes first.
   Nobody else is there and every request is answered, and the second write is confirmed over a
   document its user never saw: its entry would restore one it never replaced.
   */
  lemma UndoThenWriteRace(hash: Hash) returns (r0: Request, r1: Request, es: seq<Event>)
    requires GoodHash(hash)
    ensures TwoWrites(hash, r0, r1) && Smooth(es) && Reaches(hash, r0.previous, es)
    ensures var s := Reached(hash, r0.previous, es);
            && s.live == r1.after && 1 in s.entries && !s.inFlight
            && s.entries[1] == Confirmed(r1, Some(r0.previous), r0.previous, false)
            && s.entries[1].replaced != Some(s.entries[1].before)
  {
    r0, r1 := AddFirst(hash), AddSecond(hash);
    AddBoth(hash);
    es := UndoThenWriteRun(hash, r0, r1);
  }

  lemma UndoThenWriteRun(hash: Hash, r0: Request, r1: Request) returns (es: seq<Event>)
    requires GoodHash(hash) && TwoWrites(hash, r0, r1)
    ensures Smooth(es)
    ensures Leads(hash, Start(r0.previous), es,
                  State(r1.after, map[0 := Settled(r0).(changed := true, undone := true),
                                      1 := Confirmed(r1, Some(r0.previous), r0.previous, false)],
                        map[1 := Task(0, None, Confirming(r0.previous, true), false)], false))
  {
    var x0, undone := Settled(r0).(changed := true, undone := true), Confirming(r0.previous, true);
    var end := State(r1.after, map[0 := x0, 1 := Confirmed(r1, Some(r0.previous), r0.previous, false)],
                     map[1 := Task(0, None, undone, false)], false);
    var x1 := Fresh(r1).(replaced := Some(r0.previous), over := Some(r0.previous));
    ThenWriteIsConfirmed(hash, x0, x1, r1, undone, [], end);
    es := [ReadBack(0, false)] + ([Mark(0)] + []);
    ThenWritePuts(hash, r0.previous, x0, Fresh(r1), r1, undone, Putting(r1.after, r1.previous, Some(r0.previous)), es, end);
    SmoothMore(Put(0, true, true), es);
    es := [Put(0, true, true)] + es;
    ThenUndoPuts(hash, r0.after, Settled(r0), Fresh(r1), r1, Putting(r0.previous, r0.after, None),
                 Putting(r1.after, r1.previous, None), es, end);
    SmoothMore(Put(1, true, true), es);
    es := BothHaveRead(hash, r0, r1, [Put(1, true, true)] + es, end);
  }

  /**
   The other order: the second write lands over the document its user reviewed and is confirmed, and
   then the undo, which had read that document before, puts the first one's prior document over it.
   The write is lost, with nobody else there and every request answered, and its entry says `Pending`
   over a document it did not leave.
   */
  lemma WriteThenUndoRace(hash: Hash) returns (r0: Request, r1: Request, es: seq<Event>)
    requires GoodHash(hash)
    ensures TwoWrites(hash, r0, r1) && Smooth(es) && Reaches(hash, r0.previous, es)
    ensures var s := Reached(hash, r0.previous, es);
            && s.live == r0.previous && 1 in s.entries && !s.inFlight
            && s.entries[1] == Confirmed(r1, None, r1.previous, true)
            && s.live != s.entries[1].after && s.live != s.entries[1].before
  {
    r0, r1 := AddFirst(hash), AddSecond(hash);
    AddBoth(hash);
    es := WriteThenUndoRun(hash, r0, r1);
  }

  lemma WriteThenUndoRun(hash: Hash, r0: Request, r1: Request) returns (es: seq<Event>)
    requires GoodHash(hash) && TwoWrites(hash, r0, r1)
    ensures Smooth(es)
    ensures Leads(hash, Start(r0.previous), es,
                  State(r0.previous, map[0 := Settled(r0).(changed := true, undone := true),
                                         1 := Confirmed(r1, None, r1.previous, true)],
                        map[1 := Task(0, None, Confirming(r0.previous, true), false)], false))
  {
    var x0 := Settled(r0).(changed := true);
    var late := Putting(r0.previous, r0.after, Some(r1.after));
    var end := State(r0.previous, map[0 := x0.(undone := true), 1 := Confirmed(r1, None, r1.previous, true)],
                     map[1 := Task(0, None, Confirming(r0.previous, true), false)], false);
    ThenLateUndo(hash, r1.after, x0, Confirmed(r1, None, r1.previous, false), late, [], end);
    es := [Put(1, true, true)] + [];
    ThenWriteIsConfirmed(hash, x0, Fresh(r1).(replaced := Some(r1.previous)), r1, late, es, end);
    SmoothMore(Mark(0), es);
    SmoothMore(ReadBack(0, false), [Mark(0)] + es);
    es := [ReadBack(0, false)] + ([Mark(0)] + es);
    ThenWritePuts(hash, r0.after, Settled(r0), Fresh(r1), r1, Putting(r0.previous, r0.after, None),
                  Putting(r1.after, r1.previous, None), es, end);
    SmoothMore(Put(0, true, true), es);
    es := BothHaveRead(hash, r0, r1, [Put(0, true, true)] + es, end);
  }

  lemma ThenLateUndo(hash: Hash, live: Value, x0: Entry, x1: Entry, undo: Phase, es: seq<Event>, end: State)
    requires undo.Putting? && undo.body != live && x0.replaced.Some? && x1.replaced.Some?
    requires Leads(hash, State(undo.body, map[0 := x0.(changed := true, undone := true), 1 := x1.(changed := true)],
                               map[1 := Task(0, None, Confirming(undo.body, true), false)], false), es, end)
    ensures Leads(hash, State(live, map[0 := x0, 1 := x1], map[1 := Task(0, None, undo, false)], false), [Put(1, true, true)] + es, end)
  {
    LateUndoPut(live, x0, x1, undo);
    Then(hash, State(live, map[0 := x0, 1 := x1], map[1 := Task(0, None, undo, false)], false), Put(1, true, true), es, end);
  }

  lemma LateUndoPut(live: Value, x0: Entry, x1: Entry, undo: Phase)
    requires undo.Putting? && undo.body != live && x0.replaced.Some? && x1.replaced.Some?
    ensures PutStep(State(live, map[0 := x0, 1 := x1], map[1 := Task(0, None, undo, false)], false), 1, true, true) ==
            State(undo.body, map[0 := x0.(changed := true, undone := true), 1 := x1.(changed := true)],
                  map[1 := Task(0, None, Confirming(undo.body, true), false)], false)
  {
    var s := State(live, map[0 := x0, 1 := x1], map[1 := Task(0, None, undo, false)], false);
    ReplacedShape(s, undo.body);
    assert Replaced(s, undo.body).entries == map[0 := x0.(changed := true), 1 := x1.(changed := true)];
    assert Replaced(s, undo.body).tasks == map[1 := Overtaken(Task(0, None, undo, false), undo.body)];
  }
}
