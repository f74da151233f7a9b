/**
 The agent daemon's credential and client cache.  Requests, locks, unlocks and edits of the
 files on disk interleave: a request captures state, stats a file, reads it, and installs or
 publishes, and anything else may happen between each.
 */
module AgentCache {
  import opened Common

  type Tenant = string
  type Jwk = string
  type KeyMap = map<Tenant, Jwk>
  type Mtime = nat
  type Dek = nat

  // The mtime recorded for a file that could not be statted; no file carries it.
  const UNIX_EPOCH: Mtime := 0

  datatype Cache = Cache(keys: KeyMap, mtime: Mtime)

  datatype Vault =
    | Locked
    | Encrypted(dek: Dek, cache: Option<Cache>)
    | Plain(cache: Option<Cache>)

  datatype TenantConfig = TenantConfig(name: Tenant, settings: string)

  /** A client carries its tenant's config entry and its key. */
  datatype Client = Client(config: TenantConfig, jwk: Jwk)

  type Bytes = seq<int>

  // config.toml's parser: None when the bytes are not a config.
  type Parser = Bytes -> Option<seq<TenantConfig>>

  /** The first entry of that name. */
  function FindTenant(tenants: seq<TenantConfig>, name: Tenant): (r: Option<TenantConfig>)
    ensures r.Some? ==> r.value in tenants && r.value.name == name
    ensures r.Some? ==> exists i | 0 <= i < |tenants| :: tenants[i] == r.value && forall j | 0 <= j < i :: tenants[j].name != name
    ensures r.None? ==> forall t | t in tenants :: t.name != name
  {
    if tenants == [] then None
    else if tenants[0].name == name then Some(tenants[0])
    else
      var r := FindTenant(tenants[1..], name);
      assert r.Some? ==> exists i | 0 < i < |tenants| :: tenants[i] == r.value && forall j | 0 <= j < i :: tenants[j].name != name by {
        if r.Some? {
          var i :| 0 <= i < |tenants[1..]| && tenants[1..][i] == r.value && forall j | 0 <= j < i :: tenants[1..][j].name != name;
          assert tenants[i + 1] == r.value && forall j | 0 <= j < i + 1 :: j == 0 || tenants[j] == tenants[1..][j - 1];
        }
      }
      r
  }

  function ConfigOf(parse: Parser, bytes: Bytes, name: Tenant): Option<TenantConfig> {
    match parse(bytes)
    case None => None
    case Some(tenants) => FindTenant(tenants, name)
  }

  /****** the daemon's state and its updates ******/

  datatype Agent = Agent(
    vault: Vault,
    clients: map<Tenant, Client>,
    configStamp: Option<Bytes>,
    generation: nat)

  function Invalidated(a: Agent): Agent {
    a.(clients := map[], generation := a.generation + 1)
  }

  /** `lock` and `set_vault`: another vault, and no client of the old one. */
  function WithVault(a: Agent, v: Vault): Agent { Invalidated(a.(vault := v)) }

  function CacheOf(v: Vault): Option<Cache> {
    if v.Locked? then None else v.cache
  }

  function WithCache(v: Vault, c: Cache): Vault
    requires !v.Locked?
  {
    match v
    case Encrypted(dek, _) => Encrypted(dek, Some(c))
    case Plain(_) => Plain(Some(c))
  }

  function InstallJwks(a: Agent, generation: nat, c: Cache): (Agent, bool) {
    if a.generation != generation then (a, false)
    else if a.vault.Locked? then (a, true)
    else if a.vault.cache.Some? && a.vault.cache.value.mtime == c.mtime then (a, true)
    else (Invalidated(a.(vault := WithCache(a.vault, c))), true)
  }

  function RefreshConfigStamp(a: Agent, content: Option<Bytes>): Agent {
    if content.None? || a.configStamp != content then Invalidated(a.(configStamp := content)) else a
  }

  function Publish(a: Agent, name: Tenant, client: Client, generation: nat, config: Bytes): Agent {
    if a.generation == generation && a.configStamp == Some(config)
    then a.(clients := a.clients[name := client])
    else a
  }

  /** The daemon's record of all this, updated in place. */
  class AgentState {
    var vault: Vault
    var clients: map<Tenant, Client>
    var configStamp: Option<Bytes>
    var generation: nat

    function View(): Agent
      reads this
    {
      Agent(vault, clients, configStamp, generation)
    }

    constructor ()
      ensures View() == Agent(Locked, map[], None, 0)
    {
      vault, clients, configStamp, generation := Locked, map[], None, 0;
    }

    method InvalidateClients()
      modifies this
      ensures View() == Invalidated(old(View()))
    {
      clients := map[];
      generation := generation + 1;
    }

    method Lock()
      modifies this
      ensures View() == WithVault(old(View()), Locked)
    {
      vault := Locked;
      InvalidateClients();
    }

    method SetVault(v: Vault)
      modifies this
      ensures View() == WithVault(old(View()), v)
    {
      vault := v;
      InvalidateClients();
    }

    method Install(captured: nat, keys: KeyMap, modified: Mtime) returns (current: bool)
      modifies this
      ensures (View(), current) == InstallJwks(old(View()), captured, Cache(keys, modified))
    {
      if generation != captured {
        return false;
      }
      match vault {
        case Locked => return true;
        case Encrypted(dek, cache) =>
          if cache.Some? && cache.value.mtime == modified {
            return true;
          }
          vault := Encrypted(dek, Some(Cache(keys, modified)));
        case Plain(cache) =>
          if cache.Some? && cache.value.mtime == modified {
            return true;
          }
          vault := Plain(Some(Cache(keys, modified)));
      }
      InvalidateClients();
      current := true;
    }

    method RefreshStamp(content: Option<Bytes>)
      modifies this
      ensures View() == RefreshConfigStamp(old(View()), content)
    {
      if content.None? || configStamp != content {
        configStamp := content;
        InvalidateClients();
      }
    }

    method PublishClient(name: Tenant, client: Client, captured: nat, config: Bytes)
      modifies this
      ensures View() == Publish(old(View()), name, client, captured, config)
    {
      if generation == captured && configStamp == Some(config) {
        clients := clients[name := client];
      }
    }
  }

  // At most this many refresh attempts before the request fails.
  const JWK_REFRESH_ATTEMPTS := 3

  datatype Attempt = Current | Moved | Error

  /** Runs attempts until one is current; an error ends it, and three that moved do. */
  method Fenced(attempts: seq<Attempt>) returns (ok: bool, used: nat)
    requires |attempts| == JWK_REFRESH_ATTEMPTS
    ensures 1 <= used <= JWK_REFRESH_ATTEMPTS
    ensures forall i | 0 <= i < used - 1 :: attempts[i].Moved?
    ensures ok <==> attempts[used - 1].Current?
    ensures !ok ==> attempts[used - 1].Error? || used == JWK_REFRESH_ATTEMPTS
  {
    used := 0;
    for i := 0 to JWK_REFRESH_ATTEMPTS
      invariant used == i
      invariant forall j | 0 <= j < i :: attempts[j].Moved?
    {
      used := used + 1;
      match attempts[i] {
        case Current => return true, used;
        case Error => return false, used;
        case Moved =>
      }
    }
    ok := false;
  }

  /****** files, tasks and their interleavings ******/

  datatype KeyFile = KeyFile(keys: KeyMap, mtime: Mtime)

  /** keys.enc is a map under some key; it opens with that key only. */
  datatype EncFile = EncFile(under: Dek, file: KeyFile)

  datatype Disk = Disk(plain: Option<KeyFile>, enc: Option<EncFile>, config: Option<Bytes>)

  /** Which key file a request reads, and with what. */
  datatype Mode = EncMode(dek: Dek) | PlainMode

  function ModeOf(v: Vault): Mode
    requires !v.Locked?
  {
    if v.Encrypted? then EncMode(v.dek) else PlainMode
  }

  /** The mode's file as a stat sees it: present under a key or not, it has an mtime. */
  function Stat(d: Disk, m: Mode): Option<Mtime> {
    match m
    case EncMode(_) => if d.enc.Some? then Some(d.enc.value.file.mtime) else None
    case PlainMode => if d.plain.Some? then Some(d.plain.value.mtime) else None
  }

  /** The key map a read in that mode yields; None is an error.  A missing file is an empty map. */
  function ReadKeys(d: Disk, m: Mode): Option<KeyMap> {
    match m
    case EncMode(dek) =>
      if d.enc.None? then Some(map[])
      else if d.enc.value.under == dek then Some(d.enc.value.file.keys)
      else None
    case PlainMode => Some(if d.plain.Some? then d.plain.value.keys else map[])
  }

  datatype Task =
    // refresh_config_stamp, between the read and the write lock
    | StampRead(content: Option<Bytes>)
    // refresh_jwk_cache_once: captured; statted; read
    | RefreshCaptured(mode: Mode, cached: Option<Mtime>, generation: nat)
    | RefreshStatted(mode: Mode, cached: Option<Mtime>, generation: nat, modified: Mtime)
    | RefreshRead(mode: Mode, cached: Option<Mtime>, generation: nat, modified: Mtime, keys: KeyMap)
    // do_unlock_plain: statted; read
    | UnlockStatted(stat: Option<Mtime>)
    | UnlockRead(stat: Option<Mtime>, keys: KeyMap)
    // build_client_from_cache: captured; config read and parsed
    | BuildCaptured(tenant: Tenant, generation: nat, jwk: Jwk)
    | BuildRead(tenant: Tenant, generation: nat, client: Client, config: Bytes)

  /** `clock` is above every mtime a file has had. */
  datatype System = System(agent: Agent, disk: Disk, clock: Mtime, tasks: map<nat, Task>)

  datatype Event =
    // one atomic request, or the idle timer, a failed status check
    | LockVault
    | PutDek(dek: Dek)                    // accepted only while `hold_vault_key` holds
    // another process edits a file; a replacement gets a fresh mtime
    | WritePlain(keys: Option<KeyMap>)
    | WriteEnc(enc: Option<(Dek, KeyMap)>)
    | WriteConfig(config: Option<Bytes>)
    // tasks
    | StartStamp(id: nat)
    | StartRefresh(id: nat)
    | StartUnlock(id: nat, statFails: bool)
    | StartBuild(id: nat, tenant: Tenant)
    | Advance(id: nat, fails: bool)       // the task's next step; a stat or read may fail

  function Drop<T>(m: map<nat, T>, id: nat): map<nat, T> { map k | k in m && k != id :: m[k] }

  function Advanced(parse: Parser, s: System, id: nat, fails: bool): System
    requires id in s.tasks
  {
    var ended := s.(tasks := Drop(s.tasks, id));
    match s.tasks[id]
    case StampRead(content) => ended.(agent := RefreshConfigStamp(s.agent, content))
    case RefreshCaptured(mode, cached, generation) =>
      var modified := if fails then None else Stat(s.disk, mode);
      if modified == cached || (modified.None? && cached.Some?) then
        if cached.None? then s.(tasks := s.tasks[id := RefreshStatted(mode, cached, generation, UNIX_EPOCH)])
        else ended                                     // current, or the stat failed over a cache
      else s.(tasks := s.tasks[id := RefreshStatted(mode, cached, generation, modified.value)])
    case RefreshStatted(mode, cached, generation, modified) =>
      var keys := if fails then None else ReadKeys(s.disk, mode);
      if keys.None? then ended
      else s.(tasks := s.tasks[id := RefreshRead(mode, cached, generation, modified, keys.value)])
    case RefreshRead(_, _, generation, modified, keys) =>
      ended.(agent := InstallJwks(s.agent, generation, Cache(keys, modified)).0)
    case UnlockStatted(stat) =>
      if fails || s.disk.plain.None? then ended
      else s.(tasks := s.tasks[id := UnlockRead(stat, s.disk.plain.value.keys)])
    case UnlockRead(stat, keys) =>
      var cache := if stat.Some? then Some(Cache(keys, stat.value)) else None;
      ended.(agent := WithVault(s.agent, Plain(cache)))
    case BuildCaptured(tenant, generation, jwk) =>
      if fails || s.disk.config.None? then ended
      else
        var config := ConfigOf(parse, s.disk.config.value, tenant);
        if config.None? then ended
        else s.(tasks := s.tasks[id := BuildRead(tenant, generation, Client(config.value, jwk), s.disk.config.value)])
    case BuildRead(tenant, generation, client, config) =>
      ended.(agent := Publish(s.agent, tenant, client, generation, config))
  }

  predicate Enabled(s: System, e: Event) {
    match e
    case StartStamp(id) => id !in s.tasks
    case StartRefresh(id) => id !in s.tasks && !s.agent.vault.Locked?
    case StartUnlock(id, _) => id !in s.tasks
    case StartBuild(id, tenant) =>
      && id !in s.tasks
      && CacheOf(s.agent.vault).Some? && tenant in CacheOf(s.agent.vault).value.keys
    case Advance(id, _) => id in s.tasks
    case _ => true
  }

  function Apply(parse: Parser, s: System, e: Event): System
    requires Enabled(s, e)
  {
    match e
    case LockVault => s.(agent := WithVault(s.agent, Locked))
    case PutDek(dek) => s.(agent := WithVault(s.agent, Encrypted(dek, None)))
    case WritePlain(keys) =>
      s.(clock := s.clock + 1,
         disk := s.disk.(plain := if keys.Some? then Some(KeyFile(keys.value, s.clock)) else None))
    case WriteEnc(enc) =>
      s.(clock := s.clock + 1,
         disk := s.disk.(enc := if enc.Some? then Some(EncFile(enc.value.0, KeyFile(enc.value.1, s.clock))) else None))
    case WriteConfig(config) => s.(disk := s.disk.(config := config))
    case StartStamp(id) => s.(tasks := s.tasks[id := StampRead(s.disk.config)])
    case StartRefresh(id) =>
      var cache := CacheOf(s.agent.vault);
      var cached := if cache.Some? then Some(cache.value.mtime) else None;
      s.(tasks := s.tasks[id := RefreshCaptured(ModeOf(s.agent.vault), cached, s.agent.generation)])
    case StartUnlock(id, statFails) =>
      s.(tasks := s.tasks[id := UnlockStatted(if statFails then None else Stat(s.disk, PlainMode))])
    case StartBuild(id, tenant) =>
      s.(tasks := s.tasks[id := BuildCaptured(tenant, s.agent.generation, CacheOf(s.agent.vault).value.keys[tenant])])
    case Advance(id, fails) => Advanced(parse, s, id, fails)
  }

  function Run(parse: Parser, s: System, es: seq<Event>): Option<System>
    decreases |es|
  {
    if es == [] then Some(s)
    else if Enabled(s, es[0]) then Run(parse, Apply(parse, s, es[0]), es[1..])
    else None
  }

  /** The daemon has just started; the files are whatever they are. */
  predicate Initial(s: System) {
    && s.agent == Agent(Locked, map[], None, 0)
    && s.tasks == map[]
    && DiskOk(s.disk, s.clock)
  }

  predicate DiskOk(d: Disk, clock: Mtime) {
    && UNIX_EPOCH < clock
    && (d.plain.Some? ==> UNIX_EPOCH < d.plain.value.mtime < clock)
    && (d.enc.Some? ==> UNIX_EPOCH < d.enc.value.file.mtime < clock)
  }

  /****** invariants ******/

  /** The client is the one the current vault map and config bytes give its tenant. */
  predicate Agrees(parse: Parser, a: Agent, name: Tenant, c: Client) {
    && CacheOf(a.vault).Some?
    && name in CacheOf(a.vault).value.keys
    && c.jwk == CacheOf(a.vault).value.keys[name]
    && a.configStamp.Some?
    && ConfigOf(parse, a.configStamp.value, name) == Some(c.config)
  }

  predicate CacheAgrees(parse: Parser, a: Agent) {
    forall name | name in a.clients :: Agrees(parse, a, name, a.clients[name])
  }

  /** If the mode's file still carries `mtime`, its content is `keys` and it opens in that mode. */
  predicate Sound(d: Disk, clock: Mtime, m: Mode, keys: KeyMap, mtime: Mtime) {
    && mtime < clock
    && (Stat(d, m) == Some(mtime) ==> ReadKeys(d, m) == Some(keys))
  }

  predicate StampSound(a: Agent, d: Disk, clock: Mtime) {
    CacheOf(a.vault).Some? ==>
      Sound(d, clock, ModeOf(a.vault), CacheOf(a.vault).value.keys, CacheOf(a.vault).value.mtime)
  }

  function CachedMtime(v: Vault): Option<Mtime> {
    if CacheOf(v).Some? then Some(CacheOf(v).value.mtime) else None
  }

  /** A captured generation that is still current pins the vault it was captured from. */
  predicate Pinned(a: Agent, mode: Mode, cached: Option<Mtime>, generation: nat) {
    && generation <= a.generation
    && (generation == a.generation ==>
          !a.vault.Locked? && ModeOf(a.vault) == mode && CachedMtime(a.vault) == cached)
  }

  predicate JwkPinned(a: Agent, tenant: Tenant, jwk: Jwk, generation: nat) {
    && generation <= a.generation
    && (generation == a.generation ==>
          CacheOf(a.vault).Some? && tenant in CacheOf(a.vault).value.keys && CacheOf(a.vault).value.keys[tenant] == jwk)
  }

  predicate TaskOk(parse: Parser, t: Task, a: Agent, d: Disk, clock: Mtime) {
    match t
    case StampRead(_) => true
    case RefreshCaptured(mode, cached, generation) => Pinned(a, mode, cached, generation)
    case RefreshStatted(mode, cached, generation, modified) =>
      Pinned(a, mode, cached, generation) && cached != Some(modified) && modified < clock
    case RefreshRead(mode, cached, generation, modified, keys) =>
      && Pinned(a, mode, cached, generation) && cached != Some(modified)
      && Sound(d, clock, mode, keys, modified)
    case UnlockStatted(stat) => stat.Some? ==> stat.value < clock
    case UnlockRead(stat, keys) => stat.Some? ==> Sound(d, clock, PlainMode, keys, stat.value)
    case BuildCaptured(tenant, generation, jwk) => JwkPinned(a, tenant, jwk, generation)
    case BuildRead(tenant, generation, client, config) =>
      && JwkPinned(a, tenant, client.jwk, generation)
      && ConfigOf(parse, config, tenant) == Some(client.config)
  }

  predicate Inv(parse: Parser, s: System) {
    && DiskOk(s.disk, s.clock)
    && CacheAgrees(parse, s.agent)
    && StampSound(s.agent, s.disk, s.clock)
    && forall id | id in s.tasks :: TaskOk(parse, s.tasks[id], s.agent, s.disk, s.clock)
  }

  /** Agent steps that keep the generation keep the vault; the others raise it. */
  predicate AgentStep(a: Agent, a': Agent) {
    a'.generation > a.generation || (a'.generation == a.generation && a'.vault == a.vault)
  }

  /** File steps: a file keeps its identity with its mtime, or gets an mtime never seen before. */
  ghost predicate DiskStep(d: Disk, clock: Mtime, d': Disk, clock': Mtime) {
    && clock <= clock'
    && forall m: Mode, t: Mtime :: t < clock && Stat(d', m) == Some(t) ==> Stat(d, m) == Some(t) && ReadKeys(d', m) == ReadKeys(d, m)
  }

  lemma TaskStable(parse: Parser, t: Task, a: Agent, d: Disk, clock: Mtime, a': Agent, d': Disk, clock': Mtime)
    requires TaskOk(parse, t, a, d, clock) && AgentStep(a, a') && DiskStep(d, clock, d', clock')
    ensures TaskOk(parse, t, a', d', clock')
  {
  }

  lemma AdvanceKeepsInv(parse: Parser, s: System, id: nat, fails: bool)
    requires Inv(parse, s) && id in s.tasks
    ensures Inv(parse, Advanced(parse, s, id, fails))
  {
    var s' := Advanced(parse, s, id, fails);
    assert TaskOk(parse, s.tasks[id], s.agent, s.disk, s.clock);
    assert AgentStep(s.agent, s'.agent);
    forall k | k in s'.tasks ensures TaskOk(parse, s'.tasks[k], s'.agent, s'.disk, s'.clock) {
      if k != id {
        TaskStable(parse, s.tasks[k], s.agent, s.disk, s.clock, s'.agent, s'.disk, s'.clock);
      }
    }
  }

  lemma ApplyKeepsInv(parse: Parser, s: System, e: Event)
    requires Inv(parse, s) && Enabled(s, e)
    ensures Inv(parse, Apply(parse, s, e))
  {
    if e.Advance? {
      AdvanceKeepsInv(parse, s, e.id, e.fails);
    } else {
      var s' := Apply(parse, s, e);
      assert AgentStep(s.agent, s'.agent);
      assert DiskStep(s.disk, s.clock, s'.disk, s'.clock);
      forall k | k in s.tasks ensures TaskOk(parse, s.tasks[k], s'.agent, s'.disk, s'.clock) {
        TaskStable(parse, s.tasks[k], s.agent, s.disk, s.clock, s'.agent, s'.disk, s'.clock);
      }
    }
  }

  lemma {:induction false} RunKeepsInv(parse: Parser, s: System, es: seq<Event>)
    requires Inv(parse, s)
    ensures Run(parse, s, es).Some? ==> Inv(parse, Run(parse, s, es).value)
    decreases |es|
  {
    if es != [] && Enabled(s, es[0]) {
      ApplyKeepsInv(parse, s, es[0]);
      RunKeepsInv(parse, Apply(parse, s, es[0]), es[1..]);
    }
  }

  /** In every run, each cached client is what the current vault map and config bytes give. */
  lemma ClientsAgree(parse: Parser, s0: System, es: seq<Event>)
    requires Initial(s0) && Run(parse, s0, es).Some?
    ensures var a := Run(parse, s0, es).value.agent;
            && CacheAgrees(parse, a)
            && (a.vault.Locked? ==> a.clients == map[])
  {
    RunKeepsInv(parse, s0, es);
  }

  /** In every run, an mtime that still matches the mode's file means the cached map is that file. */
  lemma StampIsSound(parse: Parser, s0: System, es: seq<Event>)
    requires Initial(s0) && Run(parse, s0, es).Some?
    ensures var s := Run(parse, s0, es).value;
            var cache := CacheOf(s.agent.vault);
            cache.Some? && Stat(s.disk, ModeOf(s.agent.vault)) == Some(cache.value.mtime)
            ==> ReadKeys(s.disk, ModeOf(s.agent.vault)) == Some(cache.value.keys)
  {
    RunKeepsInv(parse, s0, es);
  }

  /**
   In every run, a read about to be installed goes to the vault it was read for or nowhere, and
   then it always replaces the cache: the locked and the equal-mtime arms are never reached.
   */
  lemma ModeFence(parse: Parser, s0: System, es: seq<Event>, id: nat)
    requires Initial(s0) && Run(parse, s0, es).Some?
    requires id in Run(parse, s0, es).value.tasks && Run(parse, s0, es).value.tasks[id].RefreshRead?
    ensures var s := Run(parse, s0, es).value;
            var t := s.tasks[id];
            var (a, current) := InstallJwks(s.agent, t.generation, Cache(t.keys, t.modified));
            && (current <==> t.generation == s.agent.generation)
            && (!current ==> a == s.agent)
            && (current ==>
                  && !s.agent.vault.Locked? && ModeOf(s.agent.vault) == t.mode
                  && CachedMtime(s.agent.vault) != Some(t.modified)
                  && !a.vault.Locked? && ModeOf(a.vault) == t.mode
                  && a.vault.cache == Some(Cache(t.keys, t.modified))
                  && a.clients == map[] && a.generation == s.agent.generation + 1)
  {
    RunKeepsInv(parse, s0, es);
    var s := Run(parse, s0, es).value;
    assert TaskOk(parse, s.tasks[id], s.agent, s.disk, s.clock);
  }

  lemma {:induction false} GenerationGrows(parse: Parser, s: System, es: seq<Event>)
    requires Run(parse, s, es).Some?
    ensures Run(parse, s, es).value.agent.generation >= s.agent.generation
    decreases |es|
  {
    if es != [] {
      GenerationGrows(parse, Apply(parse, s, es[0]), es[1..]);
    }
  }

  /**
   A build in flight across a lock never publishes, whatever follows: its captured generation
   is history the moment the vault locks.
   */
  lemma LockFencesBuilds(parse: Parser, s: System, es: seq<Event>, id: nat, captured: nat,
                         name: Tenant, client: Client, config: Bytes)
    requires Inv(parse, s) && id in s.tasks
    requires s.tasks[id] == BuildCaptured(name, captured, client.jwk) || s.tasks[id] == BuildRead(name, captured, client, config)
    requires Run(parse, Apply(parse, s, LockVault), es).Some?
    ensures var a := Run(parse, Apply(parse, s, LockVault), es).value.agent;
            Publish(a, name, client, captured, config) == a
  {
    assert TaskOk(parse, s.tasks[id], s.agent, s.disk, s.clock);
    GenerationGrows(parse, Apply(parse, s, LockVault), es);
  }

  /****** what a refresh that ended current leaves ******/

  lemma {:induction false} RunSnoc(parse: Parser, s: System, es: seq<Event>, n: nat)
    requires Run(parse, s, es).Some? && n < |es|
    ensures Run(parse, s, es[..n]).Some? && Run(parse, s, es[..n + 1]).Some?
    ensures Enabled(Run(parse, s, es[..n]).value, es[n])
    ensures Run(parse, s, es[..n + 1]).value == Apply(parse, Run(parse, s, es[..n]).value, es[n])
    decreases |es|
  {
    if n == 0 {
      assert es[..1][0] == es[0] && es[..1][1..] == [];
      assert Run(parse, Apply(parse, s, es[0]), []).Some?;
    } else {
      RunSnoc(parse, Apply(parse, s, es[0]), es[1..], n - 1);
      assert es[..n][0] == es[0] && es[..n][1..] == es[1..][..n - 1];
      assert es[..n + 1][0] == es[0] && es[..n + 1][1..] == es[1..][..n];
    }
  }

  predicate HasRead(s: System, id: nat, t: Task) { t.RefreshRead? && id in s.tasks && s.tasks[id] == t }

  lemma ReadStep(parse: Parser, s: System, e: Event, id: nat, t: Task)
    requires Enabled(s, e) && HasRead(Apply(parse, s, e), id, t) && !HasRead(s, id, t)
    ensures ReadKeys(s.disk, t.mode) == Some(t.keys)
  {
  }

  /** A map a refresh is about to install was the content of its mode's file at a moment k of the run. */
  lemma {:induction false} ReadAtAMoment(parse: Parser, s: System, es: seq<Event>, n: nat, id: nat, t: Task) returns (k: nat)
    requires Run(parse, s, es).Some? && n <= |es| && !HasRead(s, id, t)
    requires Run(parse, s, es[..n]).Some? && HasRead(Run(parse, s, es[..n]).value, id, t)
    ensures k < n && Run(parse, s, es[..k]).Some?
    ensures ReadKeys(Run(parse, s, es[..k]).value.disk, t.mode) == Some(t.keys)
    decreases n
  {
    if n == 0 {
      assert false;
    } else {
      RunSnoc(parse, s, es, n - 1);
      if HasRead(Run(parse, s, es[..n - 1]).value, id, t) {
        k := ReadAtAMoment(parse, s, es, n - 1, id, t);
      } else {
        k := n - 1;
        ReadStep(parse, Run(parse, s, es[..n - 1]).value, es[n - 1], id, t);
      }
    }
  }

  /**
   A refresh that installs what it read leaves a map that was its file's content at some moment after
   its capture: `s` is any state since the capture in which it had not read yet.
   */
  lemma InstalledWasContent(parse: Parser, s0: System, before: seq<Event>, s: System, es: seq<Event>, id: nat) returns (k: nat)
    requires Initial(s0) && Run(parse, s0, before) == Some(s) && Run(parse, s, es).Some?
    requires id in s.tasks && s.tasks[id].RefreshCaptured?
    requires var s' := Run(parse, s, es).value;
             && id in s'.tasks && s'.tasks[id].RefreshRead?
             && InstallJwks(s'.agent, s'.tasks[id].generation, Cache(s'.tasks[id].keys, s'.tasks[id].modified)).1
    ensures k <= |es| && Run(parse, s, es[..k]).Some?
    ensures var s' := Run(parse, s, es).value;
            var a := Advanced(parse, s', id, false).agent;
            && !a.vault.Locked? && ModeOf(a.vault) == s'.tasks[id].mode && a.vault.cache.Some?
            && ReadKeys(Run(parse, s, es[..k]).value.disk, ModeOf(a.vault)) == Some(a.vault.cache.value.keys)
  {
    RunKeepsInv(parse, s0, before);
    RunKeepsInv(parse, s, es);
    var s' := Run(parse, s, es).value;
    assert TaskOk(parse, s'.tasks[id], s'.agent, s'.disk, s'.clock);
    assert es[..|es|] == es;
    k := ReadAtAMoment(parse, s, es, |es|, id, s'.tasks[id]);
  }

  /**
   And one that finds the file unchanged since its capture, with the vault still the one it captured,
   leaves a map that is the file's content at that very moment.
   */
  lemma UnchangedIsContent(parse: Parser, s0: System, es: seq<Event>, id: nat)
    requires Initial(s0) && Run(parse, s0, es).Some?
    requires var s := Run(parse, s0, es).value;
             && id in s.tasks && s.tasks[id].RefreshCaptured?
             && s.tasks[id].cached.Some? && Stat(s.disk, s.tasks[id].mode) == s.tasks[id].cached
             && s.tasks[id].generation == s.agent.generation
    ensures var s := Run(parse, s0, es).value;
            && Advanced(parse, s, id, false).agent == s.agent
            && !s.agent.vault.Locked? && ModeOf(s.agent.vault) == s.tasks[id].mode && s.agent.vault.cache.Some?
            && ReadKeys(s.disk, ModeOf(s.agent.vault)) == Some(s.agent.vault.cache.value.keys)
  {
    RunKeepsInv(parse, s0, es);
    var s := Run(parse, s0, es).value;
    assert TaskOk(parse, s.tasks[id], s.agent, s.disk, s.clock);
  }

  /****** a task that nothing disturbs ******/

  lemma Next(parse: Parser, s: System, e: Event, es: seq<Event>)
    requires Enabled(s, e)
    ensures Run(parse, s, [e] + es) == Run(parse, Apply(parse, s, e), es)
  {
    assert ([e] + es)[1..] == es;
  }

  /** The next n steps of a task, none of which fails. */
  function Steps(id: nat, n: nat): seq<Event> {
    if n == 0 then [] else [Advance(id, false)] + Steps(id, n - 1)
  }

  /**
   A refresh that finds another mtime than the cached one reads the file and installs it: unless
   something intervenes, the vault ends with the file's content under its mtime, and no clients.
   */
  lemma RefreshReadsAChange(parse: Parser, s0: System, before: seq<Event>, s: System, id: nat, modified: Mtime, keys: KeyMap)
    requires Initial(s0) && Run(parse, s0, before) == Some(s)
    requires id in s.tasks && s.tasks[id].RefreshCaptured? && s.tasks[id].generation == s.agent.generation
    requires Stat(s.disk, s.tasks[id].mode) == Some(modified) && s.tasks[id].cached != Some(modified)
    requires ReadKeys(s.disk, s.tasks[id].mode) == Some(keys)
    ensures Run(parse, s, Steps(id, 3)).Some?
    ensures var s' := Run(parse, s, Steps(id, 3)).value;
            && !s'.agent.vault.Locked? && ModeOf(s'.agent.vault) == s.tasks[id].mode
            && s'.agent.vault.cache == Some(Cache(keys, modified))
            && s'.agent.clients == map[] && id !in s'.tasks && s'.disk == s.disk
  {
    RunKeepsInv(parse, s0, before);
    assert TaskOk(parse, s.tasks[id], s.agent, s.disk, s.clock);
    InstalledInThree(parse, s, id, modified, keys);
  }

  lemma InstalledInThree(parse: Parser, s: System, id: nat, stamp: Mtime, keys: KeyMap)
    requires id in s.tasks && s.tasks[id].RefreshCaptured?
    requires var t := s.tasks[id];
             && Pinned(s.agent, t.mode, t.cached, t.generation) && t.generation == s.agent.generation
             && (Stat(s.disk, t.mode) == Some(stamp) || (Stat(s.disk, t.mode).None? && t.cached.None? && stamp == UNIX_EPOCH))
             && t.cached != Some(stamp) && ReadKeys(s.disk, t.mode) == Some(keys)
    ensures Run(parse, s, Steps(id, 3)).Some?
    ensures var s' := Run(parse, s, Steps(id, 3)).value;
            && s'.agent == Invalidated(s.agent.(vault := WithCache(s.agent.vault, Cache(keys, stamp))))
            && id !in s'.tasks && s'.disk == s.disk
  {
    var t := s.tasks[id];
    var s1 := Advanced(parse, s, id, false);
    assert s1.tasks[id] == RefreshStatted(t.mode, t.cached, t.generation, stamp);
    var s2 := Advanced(parse, s1, id, false);
    assert s2.tasks[id] == RefreshRead(t.mode, t.cached, t.generation, stamp, keys);
    var s3 := Advanced(parse, s2, id, false);
    Next(parse, s2, Advance(id, false), Steps(id, 0));
    Next(parse, s1, Advance(id, false), Steps(id, 1));
    Next(parse, s, Advance(id, false), Steps(id, 2));
  }

  /**
   With nothing cached, a file that cannot be statted is read all the same, under a stamp no file
   carries, so that the next refresh reads it again; a missing one is an empty map.
   */
  lemma RefreshReadsTheUnstatted(parse: Parser, s0: System, before: seq<Event>, s: System, id: nat, keys: KeyMap)
    requires Initial(s0) && Run(parse, s0, before) == Some(s)
    requires id in s.tasks && s.tasks[id].RefreshCaptured? && s.tasks[id].generation == s.agent.generation
    requires Stat(s.disk, s.tasks[id].mode).None? && s.tasks[id].cached.None?
    ensures Run(parse, s, Steps(id, 3)).Some?
    ensures var s' := Run(parse, s, Steps(id, 3)).value;
            && CacheOf(s'.agent.vault) == Some(Cache(map[], UNIX_EPOCH)) && s'.agent.clients == map[]
            && forall m, t | Stat(s'.disk, m) == Some(t) :: t != UNIX_EPOCH
  {
    RunKeepsInv(parse, s0, before);
    assert TaskOk(parse, s.tasks[id], s.agent, s.disk, s.clock);
    InstalledInThree(parse, s, id, UNIX_EPOCH, map[]);
  }

  /** A refresh whose stat fails over a cache, or whose read fails, leaves the daemon as it was. */
  lemma RefreshFailsSafely(parse: Parser, s: System, id: nat, fails: bool)
    requires id in s.tasks
    ensures var s' := Advanced(parse, s, id, fails);
            && (s.tasks[id].RefreshCaptured? && s.tasks[id].cached.Some? && (fails || Stat(s.disk, s.tasks[id].mode).None?) ==>
                  s'.agent == s.agent && id !in s'.tasks)
            && (s.tasks[id].RefreshStatted? && (fails || ReadKeys(s.disk, s.tasks[id].mode).None?) ==>
                  s'.agent == s.agent && id !in s'.tasks)
  {
  }

  /** A build that nothing disturbs, from the stamped config, ends with its client cached. */
  lemma BuildPublishes(parse: Parser, s: System, id: nat, name: Tenant, bytes: Bytes, entry: TenantConfig)
    requires Enabled(s, StartBuild(id, name)) && s.disk.config == Some(bytes) == s.agent.configStamp
    requires ConfigOf(parse, bytes, name) == Some(entry)
    ensures Run(parse, s, [StartBuild(id, name)] + Steps(id, 2)).Some?
    ensures var s' := Run(parse, s, [StartBuild(id, name)] + Steps(id, 2)).value;
            && s'.agent.clients == s.agent.clients[name := Client(entry, CacheOf(s.agent.vault).value.keys[name])]
            && s'.agent.vault == s.agent.vault && id !in s'.tasks
  {
    var jwk := CacheOf(s.agent.vault).value.keys[name];
    var s1 := Apply(parse, s, StartBuild(id, name));
    assert s1.tasks[id] == BuildCaptured(name, s.agent.generation, jwk);
    var s2 := Advanced(parse, s1, id, false);
    assert s2.tasks[id] == BuildRead(name, s.agent.generation, Client(entry, jwk), bytes);
    Next(parse, s2, Advance(id, false), Steps(id, 0));
    Next(parse, s1, Advance(id, false), Steps(id, 1));
    Next(parse, s, StartBuild(id, name), Steps(id, 2));
  }

  /** A build from a config that is gone, does not parse or does not have the tenant changes nothing. */
  lemma BuildFailsSafely(parse: Parser, s: System, id: nat, fails: bool)
    requires id in s.tasks && s.tasks[id].BuildCaptured?
    requires fails || s.disk.config.None? || ConfigOf(parse, s.disk.config.value, s.tasks[id].tenant).None?
    ensures Advanced(parse, s, id, fails).agent == s.agent && id !in Advanced(parse, s, id, fails).tasks
  {
  }

  /** Unlocking without encryption loads keys.plain under its mtime, whatever vault there was; none, no change. */
  lemma UnlockLoads(parse: Parser, s: System, id: nat, statFails: bool)
    requires id !in s.tasks
    ensures var es := [StartUnlock(id, statFails)] + Steps(id, if s.disk.plain.Some? then 2 else 1);
            && Run(parse, s, es).Some?
            && var s' := Run(parse, s, es).value;
            && id !in s'.tasks
            && (s.disk.plain.None? ==> s'.agent == s.agent)
            && (s.disk.plain.Some? ==>
                  && s'.agent.clients == map[]
                  && s'.agent.vault == Plain(if statFails then None else Some(Cache(s.disk.plain.value.keys, s.disk.plain.value.mtime))))
  {
    var s1 := Apply(parse, s, StartUnlock(id, statFails));
    var s2 := Advanced(parse, s1, id, false);
    if s.disk.plain.Some? {
      Next(parse, s2, Advance(id, false), Steps(id, 0));
      Next(parse, s1, Advance(id, false), Steps(id, 1));
      Next(parse, s, StartUnlock(id, statFails), Steps(id, 2));
    } else {
      Next(parse, s1, Advance(id, false), Steps(id, 0));
      Next(parse, s, StartUnlock(id, statFails), Steps(id, 1));
    }
  }

  /** The stamp follows the config; clients stay only over readable bytes that are the stamped ones. */
  lemma StampFollowsConfig(parse: Parser, s: System, id: nat)
    requires id !in s.tasks
    ensures Run(parse, s, [StartStamp(id)] + Steps(id, 1)).Some?
    ensures var a := Run(parse, s, [StartStamp(id)] + Steps(id, 1)).value.agent;
            && a.configStamp == s.disk.config && a.vault == s.agent.vault
            && a.clients == (if s.disk.config.Some? && s.disk.config == s.agent.configStamp then s.agent.clients else map[])
            && (a.generation == s.agent.generation <==> s.disk.config.Some? && s.disk.config == s.agent.configStamp)
  {
    var s1 := Apply(parse, s, StartStamp(id));
    Next(parse, s1, Advance(id, false), Steps(id, 0));
    Next(parse, s, StartStamp(id), Steps(id, 1));
  }

  /** Locking leaves nothing; a key leaves the encrypted vault with nothing read yet. */
  lemma LockAndKey(parse: Parser, s: System, dek: Dek)
    ensures var a := Apply(parse, s, LockVault).agent; a.vault == Locked && a.clients == map[] && a.generation > s.agent.generation
    ensures var a := Apply(parse, s, PutDek(dek)).agent;
            a.vault == Encrypted(dek, None) && a.clients == map[] && a.generation > s.agent.generation
  {
  }

  /**
   Stamping after the read would not be sound: read, replace, then stat pairs the old content
   with the new mtime, which no later stat questions.
   */
  lemma StatAfterReadIsUnsound() returns (d: Disk, d': Disk, keys: KeyMap, mtime: Mtime)
    ensures DiskOk(d, 2) && DiskStep(d, 2, d', 3)
    ensures ReadKeys(d, PlainMode) == Some(keys) && Stat(d', PlainMode) == Some(mtime)
    ensures !Sound(d', 3, PlainMode, keys, mtime)
  {
    keys, mtime := map["t" := "old"], 2;
    d := Disk(Some(KeyFile(keys, 1)), None, None);
    d' := Disk(Some(KeyFile(map["t" := "new"], 2)), None, None);
    assert keys["t"] != map["t" := "new"]["t"];
  }
}
