/**
 The advisory lease lock as a protocol.  Any number of `withLock` calls (clients)
 share one record of the managed lock container.  Every store call is one atomic
 step; between two steps of a client any other client may move, the clock may
 advance and any client may die.

 The proof is by rely/guarantee: `Guarantee` bounds what one client's step does to
 the store, `Rely` is what a client may assume of everybody else's steps.
 */
module LeaseProtocol {
  import opened Common

  type Token = string

  /** One stored lock object.  `rev` is assigned by the server and never reused. */
  datatype Record = Record(owner: Token, acquiredAt: int, expiresAt: int, rev: nat)

  datatype Store = Store(record: Option<Record>, nextRev: nat)

  predicate StoreOk(st: Store) {
    st.record.Some? ==> st.record.value.rev < st.nextRev
  }

  /** Writes a record under a fresh revision: the effect of a create or an update. */
  function Put(st: Store, owner: Token, acquiredAt: int, expiresAt: int): Store {
    Store(Some(Record(owner, acquiredAt, expiresAt, st.nextRev)), st.nextRev + 1)
  }

  predicate AtRev(st: Store, rev: nat) {
    st.record.Some? && st.record.value.rev == rev
  }

  predicate OwnedBy(st: Store, who: Token) {
    st.record.Some? && st.record.value.owner == who
  }

  /** A delete conditional on the revision. */
  function DeleteIf(st: Store, rev: nat): Store {
    if AtRev(st, rev) then st.(record := None) else st
  }

  datatype Config = Config(ttl: int, maxRetries: int, confirm: bool)

  /** Where a client stands, with what it remembers: its last read and its lease. */
  datatype Pc =
    | Top                                              // about to read the clock for a create
    | Creating(at: int)
    | Confirming(lease: int)                           // created; about to read it back
    | Reclaiming                                       // create said "already exists"
    | Judging(seen: Record)                            // about to compare the clock with the expiry
    | Evicting(seen: Record)
    | Deciding                                         // about to compare the attempt with the budget
    | Sleeping
    | Working(lease: int)
    | RenewReading(lease: int)
    | RenewClock(lease: int, seen: Record)
    | RenewWriting(lease: int, seen: Record, expiry: int)
    | ReleaseReading
    | ReleaseDeleting(seen: Record)
    | Finished
    | Crashed

  datatype Client = Client(cfg: Config, pc: Pc, attempt: nat)

  /** A call may throw before it took effect, or after (the answer was lost). */
  datatype Fault = NoFault | Before | After

  datatype Choice = Choice(fault: Fault, renew: bool)

  /** One atomic step of client `me`. */
  function ClientStep(me: Token, c: Client, st: Store, now: int, ch: Choice): (r: (Client, Store)) {
    match c.pc
    case Top => (c.(pc := Creating(now)), st)
    case Creating(at) =>
      if ch.fault == Before then (c.(pc := Finished), st)
      else if st.record.Some? then (c.(pc := Reclaiming), st)
      else
        var st' := Put(st, me, at, at + c.cfg.ttl);
        if ch.fault == After then (c.(pc := Finished), st')
        else if c.cfg.confirm then (c.(pc := Confirming(at + c.cfg.ttl)), st')
        else (c.(pc := Working(at + c.cfg.ttl)), st')
    case Confirming(lease) =>
      if ch.fault == NoFault && OwnedBy(st, me) then (c.(pc := Working(lease)), st)
      else (c.(pc := Deciding), st)
    case Reclaiming =>
      if ch.fault == NoFault && st.record.Some? then (c.(pc := Judging(st.record.value)), st)
      else (c.(pc := Deciding), st)
    case Judging(seen) =>
      (c.(pc := if now >= seen.expiresAt then Evicting(seen) else Deciding), st)
    case Evicting(seen) =>
      (c.(pc := Deciding), if ch.fault == Before then st else DeleteIf(st, seen.rev))
    case Deciding =>
      if c.attempt >= c.cfg.maxRetries then (c.(pc := Finished), st)
      else (c.(pc := Sleeping, attempt := c.attempt + 1), st)
    case Sleeping => (c.(pc := Top), st)
    case Working(lease) =>
      (c.(pc := if ch.renew then RenewReading(lease) else ReleaseReading), st)
    case RenewReading(lease) =>
      if ch.fault == NoFault && OwnedBy(st, me) then (c.(pc := RenewClock(lease, st.record.value)), st)
      else (c.(pc := Working(lease)), st)
    case RenewClock(lease, seen) => (c.(pc := RenewWriting(lease, seen, now + c.cfg.ttl)), st)
    case RenewWriting(lease, seen, expiry) =>
      if ch.fault == Before || !AtRev(st, seen.rev) then (c.(pc := Working(lease)), st)
      else (c.(pc := Working(if ch.fault == After then lease else expiry)),
            Put(st, seen.owner, seen.acquiredAt, expiry))
    case ReleaseReading =>
      if ch.fault == NoFault && OwnedBy(st, me) then (c.(pc := ReleaseDeleting(st.record.value)), st)
      else (c.(pc := Finished), st)
    case ReleaseDeleting(seen) =>
      (c.(pc := Finished), if ch.fault == Before then st else DeleteIf(st, seen.rev))
    case Finished => (c, st)
    case Crashed => (c, st)
  }

  predicate InWork(pc: Pc) {
    pc.Working? || pc.RenewReading? || pc.RenewClock? || pc.RenewWriting?
  }

  predicate HasLease(pc: Pc) { InWork(pc) || pc.Confirming? }

  predicate HasSeen(pc: Pc) {
    pc.Judging? || pc.Evicting? || pc.RenewClock? || pc.RenewWriting? || pc.ReleaseDeleting?
  }

  /** The record is `me`'s and lasts at least as long as `lease`. */
  predicate Covered(me: Token, st: Store, lease: int) {
    OwnedBy(st, me) && st.record.value.expiresAt >= lease
  }

  /** A remembered read either is the current record or its revision is history. */
  predicate SeenOk(seen: Record, st: Store) {
    seen.rev < st.nextRev && (AtRev(st, seen.rev) ==> st.record.value == seen)
  }

  ghost predicate ClientOk(me: Token, c: Client, st: Store, now: int) {
    && (c.pc.Creating? ==> c.pc.at <= now)
    && (HasSeen(c.pc) ==> SeenOk(c.pc.seen, st))
    && (c.pc.Evicting? ==> c.pc.seen.expiresAt <= now)
    && (c.pc.RenewClock? || c.pc.RenewWriting? || c.pc.ReleaseDeleting? ==> c.pc.seen.owner == me)
    && (HasLease(c.pc) ==>
          && c.pc.lease <= now + c.cfg.ttl
          && (now < c.pc.lease ==> Covered(me, st, c.pc.lease)))
    && (c.pc.RenewWriting? ==> c.pc.lease <= c.pc.expiry <= now + c.cfg.ttl)
  }

  /** What one step of `me` at time `now` can do to the store. */
  ghost predicate Guarantee(me: Token, st: Store, st': Store, now: int) {
    || st' == st
    || (exists at, e :: st' == Put(st, me, at, e) && (st.record.Some? ==> OwnedBy(st, me)))
    || (&& st.record.Some? && st' == st.(record := None)
        && (OwnedBy(st, me) || st.record.value.expiresAt <= now))
  }

  /** What `me` may assume of everything the others and the clock did meanwhile. */
  predicate Rely(me: Token, st: Store, now: int, st': Store, now': int) {
    && now <= now'
    && st.nextRev <= st'.nextRev
    && StoreOk(st')
    && (st'.record.Some? && st'.record.value.rev < st.nextRev ==> st'.record == st.record)
    && (OwnedBy(st', me) ==> st'.record == st.record)
    && (OwnedBy(st, me) && now' < st.record.value.expiresAt ==> st'.record == st.record)
  }

  /** Every step keeps the stepping client's own invariant and stays within its guarantee. */
  lemma StepKeeps(me: Token, c: Client, st: Store, now: int, ch: Choice)
    requires StoreOk(st) && ClientOk(me, c, st, now)
    ensures var (c', st') := ClientStep(me, c, st, now, ch);
            StoreOk(st') && ClientOk(me, c', st', now) && Guarantee(me, st, st', now)
  {
    var (c', st') := ClientStep(me, c, st, now, ch);
    if c.pc.Creating? && st' != st {
      assert st' == Put(st, me, c.pc.at, c.pc.at + c.cfg.ttl);
    }
    if c.pc.RenewWriting? && st' != st {
      assert st' == Put(st, me, c.pc.seen.acquiredAt, c.pc.expiry);
    }
  }

  lemma GuaranteeIsRely(me: Token, other: Token, st: Store, st': Store, now: int)
    requires me != other && StoreOk(st) && Guarantee(me, st, st', now)
    ensures Rely(other, st, now, st', now)
  {
  }

  lemma Stable(me: Token, c: Client, st: Store, now: int, st': Store, now': int)
    requires ClientOk(me, c, st, now) && Rely(me, st, now, st', now')
    ensures ClientOk(me, c, st', now')
  {
  }

  /** Rely composes, so it also bounds whole runs of the others. */
  lemma RelyTransitive(me: Token, st: Store, now: int, st1: Store, now1: int, st2: Store, now2: int)
    requires Rely(me, st, now, st1, now1) && Rely(me, st1, now1, st2, now2)
    ensures Rely(me, st, now, st2, now2)
  {
  }

  /****** one client among the others ******/

  datatype Moment = Moment(client: Client, store: Store, now: int)

  /** The client takes a step, or the others and the clock do whatever they may. */
  ghost predicate Moves(me: Token, a: Moment, b: Moment) {
    || (a.now == b.now && exists ch :: (b.client, b.store) == ClientStep(me, a.client, a.store, a.now, ch))
    || (a.client == b.client && Rely(me, a.store, a.now, b.store, b.now))
  }

  ghost predicate Path(me: Token, ms: seq<Moment>) {
    forall i | 0 < i < |ms| :: Moves(me, ms[i - 1], ms[i])
  }

  /** Whatever the others do between its steps, the client's invariant is there at the end. */
  lemma {:induction false} PathKeepsOk(me: Token, ms: seq<Moment>)
    requires ms != [] && Path(me, ms) && StoreOk(ms[0].store) && ClientOk(me, ms[0].client, ms[0].store, ms[0].now)
    ensures var m := ms[|ms| - 1]; StoreOk(m.store) && ClientOk(me, m.client, m.store, m.now)
    decreases |ms|
  {
    if |ms| > 1 {
      var n := |ms| - 1;
      PathKeepsOk(me, ms[..n]);
      var a, b := ms[n - 1], ms[n];
      assert Moves(me, a, b);
      if a.client == b.client && Rely(me, a.store, a.now, b.store, b.now) {
        Stable(me, a.client, a.store, a.now, b.store, b.now);
      } else {
        var ch :| (b.client, b.store) == ClientStep(me, a.client, a.store, a.now, ch);
        StepKeeps(me, a.client, a.store, a.now, ch);
      }
    }
  }

  /****** the whole system ******/

  datatype System = System(now: int, store: Store, clients: map<Token, Client>)

  datatype Event =
    | Tick(to: int)
    | Join(who: Token, cfg: Config)     // a withLock call starts, under a token of its own
    | Act(who: Token, ch: Choice)
    | Crash(who: Token)

  predicate Enabled(s: System, e: Event) {
    match e
    case Tick(to) => s.now <= to
    case Join(who, _) => who !in s.clients && !OwnedBy(s.store, who)
    case Act(who, _) => who in s.clients
    case Crash(who) => who in s.clients
  }

  function Apply(s: System, e: Event): System
    requires Enabled(s, e)
  {
    match e
    case Tick(to) => s.(now := to)
    case Join(who, cfg) => s.(clients := s.clients[who := Client(cfg, Top, 0)])
    case Act(who, ch) =>
      var (c, st) := ClientStep(who, s.clients[who], s.store, s.now, ch);
      s.(store := st, clients := s.clients[who := c])
    case Crash(who) => s.(clients := s.clients[who := s.clients[who].(pc := Crashed)])
  }

  /** The state after the events, or None when one of them is not enabled. */
  function Run(s: System, es: seq<Event>): Option<System>
    decreases |es|
  {
    if es == [] then Some(s)
    else if Enabled(s, es[0]) then Run(Apply(s, es[0]), es[1..])
    else None
  }

  /** Nobody has called yet; a record left by earlier calls may be there. */
  predicate Initial(s: System) {
    s.clients == map[] && StoreOk(s.store)
  }

  ghost predicate Inv(s: System) {
    && StoreOk(s.store)
    && forall c | c in s.clients :: ClientOk(c, s.clients[c], s.store, s.now)
  }

  lemma ApplyKeepsInv(s: System, e: Event)
    requires Inv(s) && Enabled(s, e)
    ensures Inv(Apply(s, e))
  {
    var s' := Apply(s, e);
    match e
    case Tick(to) =>
      forall c | c in s'.clients ensures ClientOk(c, s'.clients[c], s'.store, s'.now) {
        Stable(c, s.clients[c], s.store, s.now, s'.store, s'.now);
      }
    case Join(_, _) =>
    case Crash(_) =>
    case Act(who, ch) =>
      StepKeeps(who, s.clients[who], s.store, s.now, ch);
      forall c | c in s'.clients && c != who ensures ClientOk(c, s'.clients[c], s'.store, s'.now) {
        GuaranteeIsRely(who, c, s.store, s'.store, s.now);
        Stable(c, s.clients[c], s.store, s.now, s'.store, s'.now);
      }
  }

  lemma {:induction false} RunKeepsInv(s: System, es: seq<Event>)
    requires Inv(s)
    ensures Run(s, es).Some? ==> Inv(Run(s, es).value)
    decreases |es|
  {
    if es != [] && Enabled(s, es[0]) {
      ApplyKeepsInv(s, es[0]);
      RunKeepsInv(Apply(s, es[0]), es[1..]);
    }
  }

  /** A client inside `work` whose last successfully written expiry is still ahead. */
  predicate HoldsLease(s: System, who: Token) {
    who in s.clients && InWork(s.clients[who].pc) && s.now < s.clients[who].pc.lease
  }

  /** In every run, such a client owns the stored record, which lasts at least as long. */
  lemma HolderOwnsRecord(s0: System, es: seq<Event>, who: Token)
    requires Initial(s0) && Run(s0, es).Some?
    ensures var s := Run(s0, es).value;
            HoldsLease(s, who) ==> Covered(who, s.store, s.clients[who].pc.lease)
  {
    RunKeepsInv(s0, es);
  }

  /** In every run, two clients never work under unexpired leases. */
  lemma MutualExclusion(s0: System, es: seq<Event>, a: Token, b: Token)
    requires Initial(s0) && Run(s0, es).Some? && a != b
    ensures var s := Run(s0, es).value; !(HoldsLease(s, a) && HoldsLease(s, b))
  {
    HolderOwnsRecord(s0, es, a);
    HolderOwnsRecord(s0, es, b);
  }

  /**
   In every run, whatever removes a record is its owner, or a client that read that very
   revision and found it expired: never a renewed record and never a successor's.
   */
  lemma DeletesAreFenced(s0: System, es: seq<Event>, e: Event)
    requires Initial(s0) && Run(s0, es).Some?
    requires var s := Run(s0, es).value;
             Enabled(s, e) && s.store.record.Some? && Apply(s, e).store.record.None?
    ensures var s := Run(s0, es).value;
            var gone := s.store.record.value;
            && e.Act?
            && (|| gone.owner == e.who
                || (&& s.clients[e.who].pc == Evicting(gone)
                    && gone.expiresAt <= s.now))
  {
    RunKeepsInv(s0, es);
  }

  /** Only the owner's own renewal replaces a record in place, and it keeps the owner. */
  lemma UpdatesKeepOwner(s0: System, es: seq<Event>, e: Event)
    requires Initial(s0) && Run(s0, es).Some?
    requires var s := Run(s0, es).value;
             && Enabled(s, e) && s.store.record.Some?
             && Apply(s, e).store.record.Some? && Apply(s, e).store.record != s.store.record
    ensures var s := Run(s0, es).value;
            && e.Act?
            && s.store.record.value.owner == e.who
            && Apply(s, e).store.record.value.owner == e.who
  {
    RunKeepsInv(s0, es);
  }

  predicate LeavesAlone(e: Event, who: Token) {
    (e.Act? || e.Join? || e.Crash?) ==> e.who != who
  }

  /** `Rely` is sound: no run of the others, however long, does more to the store. */
  lemma {:induction false} OthersRely(s: System, es: seq<Event>, who: Token)
    requires Inv(s) && Run(s, es).Some?
    requires forall e | e in es :: LeavesAlone(e, who)
    ensures var s' := Run(s, es).value; Rely(who, s.store, s.now, s'.store, s'.now)
    decreases |es|
  {
    if es != [] {
      var s1 := Apply(s, es[0]);
      assert LeavesAlone(es[0], who);
      ApplyKeepsInv(s, es[0]);
      if es[0].Act? {
        StepKeeps(es[0].who, s.clients[es[0].who], s.store, s.now, es[0].ch);
        GuaranteeIsRely(es[0].who, who, s.store, s1.store, s.now);
      }
      OthersRely(s1, es[1..], who);
      var s2 := Run(s, es).value;
      RelyTransitive(who, s.store, s.now, s1.store, s1.now, s2.store, s2.now);
    }
  }

  // The caller `b` that finds `a`'s record at its expiry: b's state and the store after i steps.
  const OVERLAP := Config(10, 5, false)
  const GONE := Record("a", 0, 10, 0)

  function LateClient(i: nat): Client {
    Client(OVERLAP,
           if i == 0 then Top else if i == 1 then Creating(10) else if i == 2 then Reclaiming
           else if i == 3 then Judging(GONE) else if i == 4 then Evicting(GONE)
           else if i == 5 then Deciding else if i == 6 then Sleeping else if i == 7 then Top
           else if i == 8 then Creating(10) else Working(20),
           if i < 6 then 0 else 1)
  }

  function LateStore(i: nat): Store {
    if i < 5 then Store(Some(GONE), 1) else if i < 9 then Store(None, 1)
    else Store(Some(Record("b", 10, 20, 1)), 2)
  }

  function LateSystem(i: nat): System {
    System(10, LateStore(i), map["a" := Client(OVERLAP, Working(10), 0), "b" := LateClient(i)])
  }

  lemma LateStep(i: nat)
    requires i < 9
    ensures Enabled(LateSystem(i), Act("b", Choice(NoFault, false)))
    ensures Apply(LateSystem(i), Act("b", Choice(NoFault, false))) == LateSystem(i + 1)
  {
    assert ClientStep("b", LateClient(i), LateStore(i), 10, Choice(NoFault, false))
        == (LateClient(i + 1), LateStore(i + 1));
    assert LateSystem(i).clients["b" := LateClient(i + 1)] == LateSystem(i + 1).clients;
  }

  /**
   The lease is needed in the theorem above: without it exclusion is false.  A holder that
   works past its expiry is joined in `work` by the caller that evicted its record.
   */
  lemma OverlapAfterExpiry()
    ensures exists s0: System, es: seq<Event> ::
              && Initial(s0) && Run(s0, es).Some?
              && var s := Run(s0, es).value;
                 "a" in s.clients && "b" in s.clients
                 && InWork(s.clients["a"].pc) && InWork(s.clients["b"].pc)
  {
    var s0 := System(0, Store(None, 0), map[]);
    var ok := Choice(NoFault, false);
    var es, s := Extend(s0, [], s0, Join("a", OVERLAP));
    es, s := Extend(s0, es, s, Act("a", ok));   // reads the clock
    es, s := Extend(s0, es, s, Act("a", ok));   // creates, and works until 10
    es, s := Extend(s0, es, s, Tick(10));
    es, s := Extend(s0, es, s, Join("b", OVERLAP));
    assert s == LateSystem(0);
    for i := 0 to 9
      invariant Run(s0, es) == Some(s) && s == LateSystem(i)
    {
      LateStep(i);
      es, s := Extend(s0, es, s, Act("b", ok));
    }
    assert Initial(s0);
  }

  lemma {:induction false} RunSnoc(s: System, es: seq<Event>, e: Event)
    requires Run(s, es).Some? && Enabled(Run(s, es).value, e)
    ensures Run(s, es + [e]) == Some(Apply(Run(s, es).value, e))
    decreases |es|
  {
    if es == [] {
      assert Run(Apply(s, e), []) == Some(Apply(s, e));
    } else {
      RunSnoc(Apply(s, es[0]), es[1..], e);
      assert (es + [e])[1..] == es[1..] + [e];
    }
  }

  lemma Extend(s0: System, es: seq<Event>, s: System, e: Event) returns (es': seq<Event>, s': System)
    requires Run(s0, es) == Some(s) && Enabled(s, e)
    ensures es' == es + [e] && s' == Apply(s, e) && Run(s0, es') == Some(s')
  {
    RunSnoc(s0, es, e);
    es', s' := es + [e], Apply(s, e);
  }
}
