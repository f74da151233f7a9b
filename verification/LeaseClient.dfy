/**
 The lock template's own code, run by one client against the shared store.  Between any two
 of its store calls `Yield` lets the others and the clock move as far as `Rely` allows, which
 `LeaseProtocol.OthersRely` proves is what whole runs of other clients can do.
 */
module LeaseClient {
  import opened Common
  import opened LeaseProtocol

  datatype Read = Found(record: Record) | Missing | Threw

  datatype Created = Granted | Exists | Refused     // Refused: any error but "already exists"

  datatype Acquired = Lease(expiry: int) | TimedOut | Failed

  /** Time slept after n pauses. */
  ghost function Pauses(n: nat, ms: nat): nat { if n == 0 then 0 else Pauses(n - 1, ms) + ms }

  /** The times a record in the way was looked at, the n-th no sooner than after n pauses. */
  ghost predicate Paced(checks: seq<int>, start: int, now: int, pauseMs: nat) {
    forall i | 0 <= i < |checks| :: start + Pauses(i, pauseMs) <= checks[i] <= now
  }

  /** The record was still good, each time but perhaps the last; and then it was evicted. */
  predicate Waiting(checks: seq<int>, expires: int, evicted: bool) {
    && (forall i | 0 <= i < |checks| - 1 :: checks[i] < expires)
    && (evicted <==> checks != [] && expires <= checks[|checks| - 1])
  }

  /** How a lone caller with a record in its way ends. */
  predicate Ends(checks: seq<int>, expires: int, maxRetries: int, acquired: bool, creates: nat) {
    && |checks| == (if acquired then creates - 1 else creates)
    && (!acquired ==> |checks| == Max(maxRetries, 0) + 1)
    && (forall i | 0 <= i < |checks| && i < maxRetries && expires <= checks[i] :: acquired && creates == i + 2)
    && (acquired ==> exists i | 0 <= i < |checks| && i < maxRetries :: expires <= checks[i])
  }

  lemma PacedMore(checks: seq<int>, start: int, now: int, pauseMs: nat, at: int, now': int)
    requires Paced(checks, start, now, pauseMs) && start + Pauses(|checks|, pauseMs) <= at && now <= at <= now'
    ensures Paced(checks + [at], start, now', pauseMs)
  {
  }

  lemma WaitingMore(checks: seq<int>, expires: int, at: int)
    requires Waiting(checks, expires, false)
    ensures Waiting(checks + [at], expires, expires <= at)
  {
  }

  lemma EndsAcquired(checks: seq<int>, expires: int, maxRetries: int)
    requires Waiting(checks, expires, true) && |checks| <= Max(maxRetries, 0)
    ensures Ends(checks, expires, maxRetries, true, |checks| + 1)
  {
    assert expires <= checks[|checks| - 1];
  }

  lemma EndsTimedOut(checks: seq<int>, expires: int, maxRetries: int, evicted: bool)
    requires Waiting(checks, expires, evicted) && |checks| == Max(maxRetries, 0) + 1
    ensures Ends(checks, expires, maxRetries, false, |checks|)
  {
  }

  /** A record that expires within k pauses is out of the way in time. */
  lemma EndsWithin(checks: seq<int>, start: int, now: int, pauseMs: nat, expires: int, maxRetries: int, acquired: bool, creates: nat, k: nat)
    requires Paced(checks, start, now, pauseMs) && Ends(checks, expires, maxRetries, acquired, creates)
    requires k < maxRetries && expires <= start + Pauses(k, pauseMs)
    ensures acquired && creates <= k + 2
  {
    if k < |checks| { assert expires <= checks[k]; }
  }

  /** What a lone caller's loop knows: the record in its way, if any was, and how often it was looked at. */
  ghost predicate Held(was: Option<Record>, record: Option<Record>, checks: seq<int>, start: int, now: int, pauseMs: nat, attempt: nat) {
    && now >= start + Pauses(attempt, pauseMs)
    && if was.None? then attempt == 0 && record.None?
       else
         && (record == was || record.None?) && |checks| == attempt
         && Paced(checks, start, now, pauseMs) && Waiting(checks, was.value.expiresAt, record.None?)
  }

  lemma HeldMore(was: Option<Record>, checks: seq<int>, start: int, now: int, pauseMs: nat, attempt: nat,
                 at: int, now': int, record': Option<Record>)
    requires was.Some? && Held(was, was, checks, start, now, pauseMs, attempt) && now <= at <= now'
    requires record' == if was.value.expiresAt <= at then None else was
    ensures |checks + [at]| == attempt + 1 && (record' == was || record'.None?)
    ensures Paced(checks + [at], start, now', pauseMs) && Waiting(checks + [at], was.value.expiresAt, record'.None?)
  {
    PacedMore(checks, start, now, pauseMs, at, now');
    WaitingMore(checks, was.value.expiresAt, at);
  }

  /** What a lone caller's result says of the record that was in its way. */
  ghost predicate Progress(was: Option<Record>, checks: seq<int>, start: int, now: int, pauseMs: nat, maxRetries: int,
                           acquired: bool, creates: nat)
  {
    if was.None? then acquired && creates == 1
    else
      && Paced(checks, start, now, pauseMs) && Ends(checks, was.value.expiresAt, maxRetries, acquired, creates)
      && forall k: nat :: k < maxRetries && was.value.expiresAt <= start + Pauses(k, pauseMs) ==> acquired && creates <= k + 2
  }

  lemma Progressed(was: Record, checks: seq<int>, start: int, now: int, pauseMs: nat, maxRetries: int, acquired: bool, creates: nat)
    requires Paced(checks, start, now, pauseMs) && Ends(checks, was.expiresAt, maxRetries, acquired, creates)
    ensures Progress(Some(was), checks, start, now, pauseMs, maxRetries, acquired, creates)
  {
    forall k: nat | k < maxRetries && was.expiresAt <= start + Pauses(k, pauseMs) ensures acquired && creates <= k + 2 {
      EndsWithin(checks, start, now, pauseMs, was.expiresAt, maxRetries, acquired, creates, k);
    }
  }

  lemma HeldAcquires(was: Option<Record>, checks: seq<int>, start: int, now: int, pauseMs: nat, attempt: nat, now': int, maxRetries: int)
    requires Held(was, None, checks, start, now, pauseMs, attempt) && now <= now' && attempt <= Max(maxRetries, 0)
    ensures Progress(was, checks, start, now', pauseMs, maxRetries, true, attempt + 1)
  {
    if was.Some? {
      EndsAcquired(checks, was.value.expiresAt, maxRetries);
      Progressed(was.value, checks, start, now', pauseMs, maxRetries, true, attempt + 1);
    }
  }

  lemma HeldTimesOut(was: Record, checks: seq<int>, start: int, now: int, pauseMs: nat, maxRetries: int, evicted: bool)
    requires Paced(checks, start, now, pauseMs) && Waiting(checks, was.expiresAt, evicted) && |checks| == Max(maxRetries, 0) + 1
    ensures Progress(Some(was), checks, start, now, pauseMs, maxRetries, false, |checks|)
  {
    EndsTimedOut(checks, was.expiresAt, maxRetries, evicted);
    Progressed(was, checks, start, now, pauseMs, maxRetries, false, |checks|);
  }

  /**
   The managed lock container, as `openidm` and the clock show it to client `me`.  `client` and `path`
   are for the proof: where the protocol has this client, and how it got there.
   */
  class LockService {
    const me: Token
    const alone: bool          // nobody else runs, and every store call answers
    var store: Store
    var now: int
    ghost var client: Client
    ghost var path: seq<Moment>

    constructor (me: Token, alone: bool, store: Store, now: int, ghost cfg: Config)
      requires StoreOk(store)
      ensures this.me == me && this.alone == alone && this.store == store && this.now == now
      ensures client == Client(cfg, Top, 0) && path == [Here()] && Valid()
    {
      this.me, this.alone, this.store, this.now := me, alone, store, now;
      client := Client(cfg, Top, 0);
      path := [Moment(Client(cfg, Top, 0), store, now)];
    }

    ghost function Here(): Moment
      reads this
    {
      Moment(client, store, now)
    }

    /** Everything so far was the protocol's steps of this client, and the others' turns. */
    ghost predicate Valid()
      reads this
    {
      StoreOk(store) && path != [] && path[|path| - 1] == Here() && Path(me, path)
    }

    twostate predicate Others()
      reads this
    {
      && Rely(me, old(store), old(now), store, now)
      && (alone ==> store == old(store))
    }

    /** A step of the protocol, which took the store from `before`. */
    ghost method Moved(before: Store, ch: Choice)
      requires StoreOk(store) && path != [] && path[|path| - 1] == Moment(client, before, now) && Path(me, path)
      requires ClientStep(me, client, before, now, ch).1 == store
      modifies `client, `path
      ensures Valid() && old(path) <= path && client == ClientStep(me, old(client), before, now, ch).0
    {
      client := ClientStep(me, client, before, now, ch).0;
      assert Moves(me, path[|path| - 1], Here());
      path := path + [Here()];
    }

    /** The others' turn: whatever they do, of any length, is within `Rely`. */
    method Yield()
      requires Valid()
      modifies this
      ensures Others() && Valid() && old(path) <= path && client == old(client)
    {
      assert Moves(me, path[|path| - 1], Here());
      path := path + [Here()];
    }

    method Fault() returns (f: bool)
      ensures alone ==> !f
    {
      f := *;
      if alone { f := false; }
    }

    method Create(at: int, expiresAt: int) returns (r: Created)
      requires Valid() && client.pc == Creating(at) && expiresAt == at + client.cfg.ttl
      modifies this
      ensures Valid() && old(path) <= path && now == old(now)
      ensures client == old(client).(pc :=
                if r.Exists? then Reclaiming
                else if r.Refused? then Finished
                else if old(client).cfg.confirm then Confirming(expiresAt)
                else Working(expiresAt))
      ensures r.Exists? ==> old(store).record.Some? && store == old(store)
      ensures r.Granted? ==> store == Put(old(store), me, at, expiresAt)
      ensures r.Refused? ==> store == old(store) || store == Put(old(store), me, at, expiresAt)
      ensures old(store).record.Some? ==> !r.Granted? && store == old(store)
      ensures alone ==> !r.Refused?
    {
      var applied := Fault();
      var threw := Fault();
      ghost var before := store;
      if threw && !applied {
        Moved(before, Choice(Before, false));
        return Refused;
      }
      if store.record.Some? {
        Moved(before, Choice(NoFault, false));
        return Exists;
      }
      store := Put(store, me, at, expiresAt);
      Moved(before, Choice(if threw then After else NoFault, false));
      r := if threw then Refused else Granted;
    }

    method ReadLock() returns (r: Read)
      requires Valid()
      requires client.pc.Confirming? || client.pc.Reclaiming? || client.pc.RenewReading? || client.pc.ReleaseReading?
      modifies `client, `path
      ensures Valid() && old(path) <= path
      ensures client == ClientStep(me, old(client), store, now, Choice(if r.Threw? then Before else NoFault, false)).0
      ensures alone ==> !r.Threw?
      ensures r.Found? ==> store.record == Some(r.record)
      ensures r.Missing? ==> store.record.None?
    {
      var threw := Fault();
      r := if threw then Threw else if store.record.Some? then Found(store.record.value) else Missing;
      Moved(store, Choice(if threw then Before else NoFault, false));
    }

    /** Deletes if the revision still matches; a throw says nothing about whether it did. */
    method Delete(rev: nat) returns (threw: bool)
      requires Valid() && (client.pc.Evicting? || client.pc.ReleaseDeleting?) && client.pc.seen.rev == rev
      modifies this
      ensures Valid() && old(path) <= path && now == old(now)
      ensures client == old(client).(pc := if old(client).pc.Evicting? then Deciding else Finished)
      ensures store == old(store) || store == DeleteIf(old(store), rev)
      ensures !threw ==> AtRev(old(store), rev) && store.record.None?
      ensures alone && AtRev(old(store), rev) ==> !threw
    {
      threw := Fault();
      var applied := Fault();
      ghost var before := store;
      if AtRev(store, rev) && (!threw || applied) {
        store := DeleteIf(store, rev);
        Moved(before, Choice(NoFault, false));
      } else {
        threw := true;
        Moved(before, Choice(Before, false));
      }
    }

    method Update(seen: Record, expiry: int) returns (threw: bool)
      requires Valid() && client.pc.RenewWriting? && client.pc.seen == seen && client.pc.expiry == expiry
      modifies this
      ensures Valid() && old(path) <= path && now == old(now)
      ensures client == old(client).(pc := Working(if threw then old(client).pc.lease else expiry))
      ensures store == old(store) || (AtRev(old(store), seen.rev) && store == Put(old(store), seen.owner, seen.acquiredAt, expiry))
      ensures !threw ==> AtRev(old(store), seen.rev) && store != old(store)
      ensures alone && AtRev(old(store), seen.rev) ==> !threw
    {
      threw := Fault();
      var applied := Fault();
      ghost var before := store;
      if AtRev(store, seen.rev) && (!threw || applied) {
        store := Put(store, seen.owner, seen.acquiredAt, expiry);
        Moved(before, Choice(if threw then After else NoFault, false));
      } else {
        threw := true;
        Moved(before, Choice(Before, false));
      }
    }

    method Sleep(ms: nat)
      requires Valid()
      modifies this
      ensures Others() && now >= old(now) + ms
      ensures Valid() && old(path) <= path && client == old(client)
    {
      now := now + ms;
      assert Moves(me, path[|path| - 1], Here());
      path := path + [Here()];
    }

    /** Fail-closed: a read error counts as "not ours". */
    method OwnsCanonicalLock() returns (ours: bool)
      requires Valid() && client.pc.Confirming?
      modifies `client, `path
      ensures Valid() && old(path) <= path
      ensures client == old(client).(pc := if ours then Working(old(client).pc.lease) else Deciding)
      ensures ours ==> OwnedBy(store, me)
      ensures alone && OwnedBy(store, me) ==> ours
    {
      var current := ReadLock();
      ours := current.Found? && current.record.owner == me;
    }

    /**
     Evicts a record read past its expiry.  A record of `me` that is still unexpired is not touched;
     running alone, a record is removed exactly when it is expired at `checked`, when it is looked at.
     */
    method ReclaimIfExpired() returns (reclaimed: bool, ghost checked: int)
      requires Valid() && client.pc.Reclaiming?
      modifies this
      ensures Valid() && old(path) <= path && client == old(client).(pc := Deciding)
      ensures old(now) <= checked <= now
      ensures OwnedBy(old(store), me) && now < old(store).record.value.expiresAt ==> store.record == old(store).record
      ensures alone ==> store.record == if reclaimed then None else old(store).record
      ensures alone ==> (reclaimed <==> old(store).record.Some? && old(store).record.value.expiresAt <= checked)
    {
      reclaimed := false;
      checked := now;
      var existing := ReadLock();
      if existing.Found? {
        Yield();
        checked := now;
        Moved(store, Choice(NoFault, false));
        if now >= existing.record.expiresAt {
          Yield();
          var threw := Delete(existing.record.rev);
          reclaimed := !threw;
        }
      }
    }

    /** One turn of the loop: create, then confirm or reclaim.  `None` means back off. */
    method Attempt(cfg: Config) returns (r: Option<Acquired>, ghost evicted: bool, ghost checked: Option<int>)
      requires Valid() && client.cfg == cfg && client.pc.Top?
      modifies this
      ensures Valid() && old(path) <= path && old(now) <= now
      ensures client == old(client).(pc :=
                if r.None? then Deciding else if r.value.Lease? then Working(r.value.expiry) else Finished)
      ensures r.Some? ==> !r.value.TimedOut?
      ensures r.Some? && r.value.Lease? ==>
                var e := r.value.expiry;
                old(now) + cfg.ttl <= e <= now + cfg.ttl && (now < e ==> Covered(me, store, e))
      ensures r.Some? && r.value.Lease? && cfg.confirm ==> OwnedBy(store, me)
      ensures alone && old(store).record.None? ==> r.Some? && r.value.Lease?
      ensures checked.Some? ==> r.None? && old(now) <= checked.value <= now
      ensures alone && old(store).record.Some? ==>
                && checked.Some? && (evicted <==> old(store).record.value.expiresAt <= checked.value)
                && store.record == if evicted then None else old(store).record
    {
      evicted, checked := false, None;
      Yield();
      var nowMs := now;
      Moved(store, Choice(NoFault, false));
      Yield();
      var created := Create(nowMs, nowMs + cfg.ttl);
      if created.Refused? {
        return Some(Failed), evicted, checked;
      }
      Yield();
      if created.Exists? {
        var reclaimed, lookedAt := ReclaimIfExpired();
        return None, reclaimed, Some(lookedAt);
      }
      var ours := true;
      if cfg.confirm {
        ours := OwnsCanonicalLock();
      }
      r := if ours then Some(Lease(nowMs + cfg.ttl)) else None;
    }

    /**
     The acquisition loop.  At most `maxRetries + 1` creates and `maxRetries` sleeps; a granted
     lease covers the record while it lasts.  Alone with a record that expires within `k` pauses
     (`k < maxRetries`), the call acquires within `k + 2` creates: a crashed holder wedges nobody.
     Alone, `checks` are the times the record was looked at, one for each create it was in the way of:
     whatever time passed meanwhile, the call acquires exactly when the record had expired at one of
     the first `maxRetries` of them, and then by the next create.
     */
    method AcquireLock(cfg: Config, pauseMs: nat) returns (r: Acquired, creates: nat, sleeps: nat, ghost checks: seq<int>)
      requires Valid() && client == Client(cfg, Top, 0)
      modifies this
      ensures Valid() && old(path) <= path
      ensures client.cfg == cfg && client.pc == if r.Lease? then Working(r.expiry) else Finished
      ensures creates <= Max(cfg.maxRetries, 0) + 1 && sleeps + 1 == creates
      ensures r.TimedOut? ==> creates == Max(cfg.maxRetries, 0) + 1
      ensures r.Lease? ==> old(now) + cfg.ttl <= r.expiry <= now + cfg.ttl
      ensures r.Lease? && (cfg.confirm || now < r.expiry) ==> OwnedBy(store, me)
      ensures r.Lease? && now < r.expiry ==> Covered(me, store, r.expiry)
      ensures alone ==> Progress(old(store).record, checks, old(now), now, pauseMs, cfg.maxRetries, r.Lease?, creates)
    {
      var attempt := 0;
      creates, sleeps, checks := 0, 0, [];
      ghost var was, start := store.record, now;
      while true
        invariant Valid() && old(path) <= path && client == Client(cfg, Top, attempt)
        invariant start <= now && attempt == creates == sleeps <= Max(cfg.maxRetries, 0)
        invariant alone ==> Held(was, store.record, checks, start, now, pauseMs, attempt)
        decreases Max(cfg.maxRetries, 0) - attempt
      {
        ghost var evicted, checked, began := false, None, now;
        var outcome;
        outcome, evicted, checked := Attempt(cfg);
        creates := creates + 1;
        if outcome.Some? {
          if alone { HeldAcquires(was, checks, start, began, pauseMs, attempt, now, cfg.maxRetries); }
          return outcome.value, creates, sleeps, checks;
        }
        if alone {
          HeldMore(was, checks, start, began, pauseMs, attempt, checked.value, now, store.record);
          checks := checks + [checked.value];
        }
        if attempt >= cfg.maxRetries {
          Moved(store, Choice(NoFault, false));
          if alone { HeldTimesOut(was.value, checks, start, now, pauseMs, cfg.maxRetries, store.record.None?); }
          return TimedOut, creates, sleeps, checks;
        }
        BackOff(pauseMs);
        attempt := attempt + 1;
        sleeps := sleeps + 1;
      }
    }

    /** One pause, and back to the top of the loop. */
    method BackOff(pauseMs: nat)
      requires Valid() && client.pc.Deciding? && client.attempt < client.cfg.maxRetries
      modifies this
      ensures Valid() && old(path) <= path && client == old(client).(pc := Top, attempt := old(client).attempt + 1)
      ensures Others() && now >= old(now) + pauseMs
    {
      Moved(store, Choice(NoFault, false));
      Sleep(pauseMs);
      Moved(store, Choice(NoFault, false));
    }

    /** Extends the lease or throws; either way the lease last written still covers the record. */
    method RenewLease(ttl: int, lease: int) returns (renewed: Option<int>)
      requires Valid() && client.cfg.ttl == ttl && client.pc == Working(lease)
      requires lease <= now + ttl && (now < lease ==> Covered(me, store, lease))
      modifies this
      ensures Valid() && old(path) <= path && old(now) <= now
      ensures client == old(client).(pc := Working(if renewed.Some? then renewed.value else lease))
      ensures var current := if renewed.Some? then renewed.value else lease;
              lease <= current <= now + ttl && (now < current ==> Covered(me, store, current))
      ensures renewed.Some? ==> old(now) + ttl <= renewed.value
      ensures alone && OwnedBy(old(store), me) ==> renewed.Some?
    {
      Moved(store, Choice(NoFault, true));
      Yield();
      var current := ReadLock();
      if !current.Found? || current.record.owner != me {
        return None;
      }
      Yield();
      var expiry := now + ttl;
      Moved(store, Choice(NoFault, false));
      Yield();
      var threw := Update(current.record, expiry);
      renewed := if threw then None else Some(expiry);
      Yield();
    }

    /**
     `found` is the store as the delete, if any, met it: whatever the others did meanwhile, only
     a record of `me` goes, and a successor's record survives.
     */
    method ReleaseLock() returns (ghost found: Store)
      requires Valid() && client.pc.Working?
      modifies this
      ensures Valid() && old(path) <= path && client == old(client).(pc := Finished)
      ensures Rely(me, old(store), old(now), found, now)
      ensures store == found || (OwnedBy(found, me) && store == found.(record := None))
      ensures alone ==> store.record == if OwnedBy(old(store), me) then None else old(store).record
    {
      Moved(store, Choice(NoFault, false));
      Yield();
      found := store;
      var current := ReadLock();
      if current.Found? && current.record.owner == me {
        ghost var now1 := now;
        Yield();
        RelyTransitive(me, old(store), old(now), found, now1, store, now);
        found := store;
        var _ := Delete(current.record.rev);
      }
    }
  }

  /**
   What the class ties to the protocol: wherever its calls have brought a client that began outside,
   the client's invariant holds, and so its lease, while it lasts, is in the store.
   */
  lemma PathCovers(service: LockService, cfg: Config)
    requires service.Valid() && service.path[0].client == Client(cfg, Top, 0) && StoreOk(service.path[0].store)
    ensures ClientOk(service.me, service.client, service.store, service.now)
    ensures InWork(service.client.pc) && service.now < service.client.pc.lease ==>
              Covered(service.me, service.store, service.client.pc.lease)
  {
    PathKeepsOk(service.me, service.path);
  }
}
