/**
 A JSON array of records kept in one file and changed atomically: updaters take a lock on a
 sidecar, read the file, change it, assemble the new document in a temporary and rename it over
 the file; readers take no lock.  Processes interleave at every system call, reads and writes
 move any number of bytes at a time, every call may fail, and a process may die anywhere.
 */
module StateFile {
  import opened Common

  type Pid = nat
  type Inode = nat
  type Bytes = seq<int>
  type Document = seq<string>
  type Change = Document -> Document

  datatype Codec = Codec(encode: Document -> Bytes, decode: Bytes -> Option<Document>)

  /** What serialising a document and parsing it back is relied on for. */
  ghost predicate RoundTrips(codec: Codec) {
    forall d :: codec.decode(codec.encode(d)) == Some(d) && codec.encode(d) != []
  }

  /** An absent or empty file is an empty document; one that does not parse is an error. */
  function Meaning(codec: Codec, content: Option<Bytes>): Option<Document> {
    if content.None? || content.value == [] then Some([]) else codec.decode(content.value)
  }

  /**
   The directory entries for the file and its temporary, the inodes they name, and the holder of
   the lock file's lock (the lock file itself is never replaced, so it needs no inode here).
   */
  datatype Fs = Fs(
    file: Option<Inode>,
    temp: Option<Inode>,
    data: map<Inode, Bytes>,
    nextInode: Inode,
    holder: Option<Pid>)

  datatype Pc =
    // update
    | Locking
    | Opening                                        // holds the lock from here
    | Loading(from: Option<Inode>, got: Bytes)
    | Assembling(body: Bytes)
    | Writing(into: Inode, body: Bytes, written: nat)
    | Synced(into: Inode, body: Bytes)
    | Installed
    | Updated(ok: bool)
    // load by a reader; `at` is the version current when it opened the file
    | ReadOpening
    | ReadLoading(from: Option<Inode>, got: Bytes, at: nat)
    | ReadDone(failed: bool, result: Option<Document>, at: nat)   // failed: a call of the reader's failed
    | Dead

  datatype Proc = Proc(change: Change, pc: Pc)

  /**
   `log` lists the updaters in rename order and `versions` what the path named before the first
   and after each of them; `home` gives each inode the path ever named its place among these.
   All three only record what happened.
   */
  datatype System = System(
    fs: Fs,
    procs: map<Pid, Proc>,
    log: seq<Pid>,
    versions: seq<Option<Bytes>>,
    home: map<Inode, nat>)

  datatype Event =
    | StartUpdate(id: Pid, change: Change)
    | StartRead(id: Pid)
    | Step(id: Pid, bytes: nat, fails: bool)          // `bytes`: how much a read or write moves
    | Die(id: Pid)

  predicate Critical(pc: Pc) {
    pc.Opening? || pc.Loading? || pc.Assembling? || pc.Writing? || pc.Synced? || pc.Installed?
  }

  function Content(fs: Fs, i: Option<Inode>): Option<Bytes> {
    if i.Some? && i.value in fs.data then Some(fs.data[i.value]) else None
  }

  function Last<T>(s: seq<T>): T
    requires s != []
  {
    s[|s| - 1]
  }

  ghost predicate Enabled(s: System, e: Event) {
    match e
    case StartUpdate(id, _) => id !in s.procs
    case StartRead(id) => id !in s.procs
    case Step(id, _, fails) =>
      && id in s.procs
      // a blocking lock waits; it may fail, but it is not granted while another holds it
      && (s.procs[id].pc.Locking? && !fails ==> s.fs.holder.None?)
    case Die(id) => id in s.procs
  }

  ghost function Moved(s: System, id: Pid, pc: Pc, fs: Fs): System
    requires id in s.procs
  {
    s.(fs := fs, procs := s.procs[id := s.procs[id].(pc := pc)])
  }

  /** The updater is gone or through: its descriptor closes and the lock with it. */
  function Unlocked(fs: Fs, id: Pid): Fs {
    if fs.holder == Some(id) then fs.(holder := None) else fs
  }

  /** One step of an updater or reader, by phase; a failed updater ends with its lock released. */
  ghost function Failed(s: System, id: Pid): System
    requires id in s.procs
  {
    Moved(s, id, Updated(false), Unlocked(s.fs, id))
  }

  function MoreRead(all: Option<Bytes>, got: Bytes, bytes: nat): Option<Bytes> {
    if all.Some? && |got| < |all.value| then Some(got + all.value[|got|..Min(|all.value|, |got| + bytes)]) else None
  }

  ghost function LoadStep(codec: Codec, s: System, id: Pid, bytes: nat): System
    requires id in s.procs && s.procs[id].pc.Loading?
  {
    var Loading(from, got) := s.procs[id].pc;
    var more := MoreRead(Content(s.fs, from), got, bytes);
    if more.Some? then Moved(s, id, Loading(from, more.value), s.fs)
    else
      var entries := Meaning(codec, if from.None? then None else Some(got));
      if entries.None? then Failed(s, id)
      else Moved(s, id, Assembling(codec.encode(s.procs[id].change(entries.value))), s.fs)
  }

  /** Opens the temporary: a leftover is truncated, else a new inode is named. */
  ghost function OpenTemp(s: System, id: Pid): System
    requires id in s.procs && s.procs[id].pc.Assembling?
  {
    var into := if s.fs.temp.Some? then s.fs.temp.value else s.fs.nextInode;
    Moved(s, id, Writing(into, s.procs[id].pc.body, 0),
          s.fs.(temp := Some(into), data := s.fs.data[into := []],
                nextInode := if s.fs.temp.Some? then s.fs.nextInode else s.fs.nextInode + 1))
  }

  ghost function WriteStep(s: System, id: Pid, bytes: nat): System
    requires id in s.procs && s.procs[id].pc.Writing?
  {
    var Writing(into, body, written) := s.procs[id].pc;
    if written >= |body| then Moved(s, id, Synced(into, body), s.fs)
    else if into !in s.fs.data then Failed(s, id)
    else
      var to := Min(|body|, written + bytes);
      Moved(s, id, Writing(into, body, to), s.fs.(data := s.fs.data[into := s.fs.data[into] + body[written..to]]))
  }

  ghost function Rename(s: System, id: Pid): System
    requires id in s.procs
  {
    if s.fs.temp.None? then Failed(s, id)
    else
      Moved(s, id, Installed, s.fs.(file := s.fs.temp, temp := None))
        .(log := s.log + [id],
          versions := s.versions + [Content(s.fs, s.fs.temp)],
          home := s.home[s.fs.temp.value := |s.versions|])
  }

  ghost function ReadStep(codec: Codec, s: System, id: Pid, bytes: nat): System
    requires id in s.procs && s.procs[id].pc.ReadLoading?
  {
    var ReadLoading(from, got, at) := s.procs[id].pc;
    var more := MoreRead(Content(s.fs, from), got, bytes);
    if more.Some? then Moved(s, id, ReadLoading(from, more.value, at), s.fs)
    else Moved(s, id, ReadDone(false, Meaning(codec, if from.None? then None else Some(got)), at), s.fs)
  }

  ghost function Stepped(codec: Codec, s: System, id: Pid, bytes: nat, fails: bool): System
    requires id in s.procs && s.versions != []
  {
    var pc := s.procs[id].pc;
    if pc.Updated? || pc.ReadDone? || pc.Dead? then s
    else if pc.ReadOpening? || pc.ReadLoading? then
      if fails then Moved(s, id, ReadDone(true, None, if pc.ReadLoading? then pc.at else |s.versions| - 1), s.fs)
      else if pc.ReadOpening? then Moved(s, id, ReadLoading(s.fs.file, [], |s.versions| - 1), s.fs)
      else ReadStep(codec, s, id, bytes)
    else if pc.Installed? then Moved(s, id, Updated(true), Unlocked(s.fs, id))
    else if fails then Failed(s, id)
    else
      match pc
      case Locking => Moved(s, id, Opening, s.fs.(holder := Some(id)))
      case Opening => Moved(s, id, Loading(s.fs.file, []), s.fs)
      case Loading(_, _) => LoadStep(codec, s, id, bytes)
      case Assembling(_) => OpenTemp(s, id)
      case Writing(_, _, _) => WriteStep(s, id, bytes)
      case _ => Rename(s, id)
  }

  ghost function Apply(codec: Codec, s: System, e: Event): System
    requires Enabled(s, e) && s.versions != []
  {
    match e
    case StartUpdate(id, change) => s.(procs := s.procs[id := Proc(change, Locking)])
    case StartRead(id) => s.(procs := s.procs[id := Proc(d => d, ReadOpening)])
    case Step(id, bytes, fails) => Stepped(codec, s, id, bytes, fails)
    case Die(id) => Moved(s, id, Dead, Unlocked(s.fs, id))
  }

  ghost function Run(codec: Codec, s: System, es: seq<Event>): Option<System>
    requires s.versions != []
    decreases |es|
  {
    if es == [] then Some(s)
    else if Enabled(s, es[0]) then Run(codec, Apply(codec, s, es[0]), es[1..])
    else None
  }

  /** Nobody runs.  The file may hold anything, and a crash may have left a temporary. */
  ghost predicate Initial(s: System) {
    && s.procs == map[] && s.log == [] && s.fs.holder.None?
    && s.versions == [Content(s.fs, s.fs.file)]
    && (s.fs.file.Some? ==> s.fs.file.value in s.fs.data)
    && (s.fs.temp.Some? ==> s.fs.temp.value in s.fs.data && s.fs.temp != s.fs.file)
    && s.home == (if s.fs.file.Some? then map[s.fs.file.value := 0] else map[])
    && forall i | i in s.fs.data :: i < s.fs.nextInode
  }

  /****** invariant ******/

  /** Each committed version is the previous one changed by the updater that renamed it. */
  ghost predicate LogOk(codec: Codec, s: System) {
    && |s.versions| == |s.log| + 1
    && (forall i, j | 0 <= i < j < |s.log| :: s.log[i] != s.log[j])
    && forall i | 0 <= i < |s.log| :: CommitOk(codec, s, i)
  }

  ghost predicate CommitOk(codec: Codec, s: System, i: nat)
    requires i < |s.log| < |s.versions|
  {
    && s.log[i] in s.procs
    && Meaning(codec, s.versions[i]).Some?
    && s.versions[i + 1] == Some(codec.encode(s.procs[s.log[i]].change(Meaning(codec, s.versions[i]).value)))
  }

  ghost predicate FsOk(s: System) {
    && s.versions != []
    && (forall i | i in s.fs.data :: i < s.fs.nextInode)
    && (forall i | i in s.home :: i in s.fs.data && s.home[i] < |s.versions| && s.versions[s.home[i]] == Some(s.fs.data[i]))
    && Last(s.versions) == Content(s.fs, s.fs.file)
    && (s.fs.file.Some? ==> s.fs.file.value in s.home && s.home[s.fs.file.value] == |s.versions| - 1)
    && (s.fs.temp.Some? ==> s.fs.temp.value in s.fs.data && s.fs.temp.value !in s.home)
  }

  /** The body is this updater's change of the current version. */
  ghost predicate BodyOk(codec: Codec, s: System, p: Proc, body: Bytes)
    requires s.versions != []
  {
    && Meaning(codec, Last(s.versions)).Some?
    && body == codec.encode(p.change(Meaning(codec, Last(s.versions)).value))
  }

  predicate Prefix(got: Bytes, fs: Fs, from: Option<Inode>) {
    if from.Some? then from.value in fs.data && got <= fs.data[from.value] else got == []
  }

  ghost predicate PcOk(codec: Codec, s: System, id: Pid)
    requires id in s.procs && s.versions != []
  {
    var p := s.procs[id];
    match p.pc
    case Loading(from, got) => from == s.fs.file && Prefix(got, s.fs, from)
    case Assembling(body) => BodyOk(codec, s, p, body)
    case Writing(into, body, written) =>
      && BodyOk(codec, s, p, body) && s.fs.temp == Some(into)
      && written <= |body| && Content(s.fs, s.fs.temp) == Some(body[..written])
    case Synced(into, body) =>
      BodyOk(codec, s, p, body) && s.fs.temp == Some(into) && Content(s.fs, s.fs.temp) == Some(body)
    case Installed => id in s.log
    case Updated(ok) => ok ==> id in s.log
    case ReadLoading(from, got, at) =>
      && at < |s.versions| && Prefix(got, s.fs, from)
      && (from.None? ==> s.versions[at].None?)
      && (from.Some? ==> from.value in s.home && s.home[from.value] == at)
    case ReadDone(failed, result, at) =>
      at < |s.versions| && result == if failed then None else Meaning(codec, s.versions[at])
    case _ => true
  }

  ghost predicate ProcOk(codec: Codec, s: System, id: Pid)
    requires id in s.procs && s.versions != []
  {
    var p := s.procs[id];
    && (Critical(p.pc) <==> s.fs.holder == Some(id))
    && (id in s.log ==> p.pc.Installed? || p.pc == Updated(true) || p.pc.Dead?)
    && PcOk(codec, s, id)
  }

  ghost predicate Inv(codec: Codec, s: System) {
    && FsOk(s) && LogOk(codec, s)
    && (forall id | id in s.procs :: ProcOk(codec, s, id))
    && (s.fs.holder.Some? ==> s.fs.holder.value in s.procs)
  }

  /** A process that changes only its own place, or takes or frees the lock. */
  lemma HolderMove(codec: Codec, s: System, id: Pid, pc: Pc, holder: Option<Pid>)
    requires Inv(codec, s) && id in s.procs
    requires holder == s.fs.holder || (s.fs.holder.None? && holder == Some(id)) || (s.fs.holder == Some(id) && holder.None?)
    requires ProcOk(codec, Moved(s, id, pc, s.fs.(holder := holder)), id)
    ensures Inv(codec, Moved(s, id, pc, s.fs.(holder := holder)))
  {
    var s' := Moved(s, id, pc, s.fs.(holder := holder));
    forall i | 0 <= i < |s'.log| ensures CommitOk(codec, s', i) { assert CommitOk(codec, s, i); }
    forall p | p in s'.procs ensures ProcOk(codec, s', p) {
      if p != id {
        assert ProcOk(codec, s, p);
        assert PcOk(codec, s', p);
      }
    }
  }

  /** The lock holder changes the temporary, which the path has never named. */
  lemma TempMove(codec: Codec, s: System, id: Pid, pc: Pc, fs: Fs, into: Inode, data: Bytes)
    requires Inv(codec, s) && id in s.procs && s.fs.holder == Some(id)
    requires into !in s.home && fs == s.fs.(temp := Some(into), data := s.fs.data[into := data], nextInode := fs.nextInode)
    requires s.fs.nextInode <= fs.nextInode && into < fs.nextInode
    requires ProcOk(codec, Moved(s, id, pc, fs), id)
    ensures Inv(codec, Moved(s, id, pc, fs))
  {
    var s' := Moved(s, id, pc, fs);
    forall i | 0 <= i < |s'.log| ensures CommitOk(codec, s', i) { assert CommitOk(codec, s, i); }
    forall p | p in s'.procs ensures ProcOk(codec, s', p) {
      if p != id {
        assert ProcOk(codec, s, p);
        assert PcOk(codec, s', p);
      }
    }
  }

  lemma RenameKeepsInv(codec: Codec, s: System, id: Pid)
    requires Inv(codec, s) && id in s.procs && s.procs[id].pc.Synced?
    ensures Inv(codec, Rename(s, id))
  {
    assert ProcOk(codec, s, id);
    var s' := Rename(s, id);
    assert s'.versions[|s.log|] == Last(s.versions);
    forall i | 0 <= i < |s'.log| ensures CommitOk(codec, s', i) {
      if i < |s.log| { assert CommitOk(codec, s, i); }
    }
    assert id !in s.log;
    forall p | p in s'.procs ensures ProcOk(codec, s', p) {
      if p != id {
        assert ProcOk(codec, s, p);
        assert PcOk(codec, s', p);
      } else {
        assert s'.log[|s.log|] == id;
      }
    }
  }

  lemma LoadKeepsInv(codec: Codec, s: System, id: Pid, bytes: nat)
    requires Inv(codec, s) && id in s.procs && s.procs[id].pc.Loading?
    ensures Inv(codec, LoadStep(codec, s, id, bytes))
  {
    assert ProcOk(codec, s, id);
    var Loading(from, got) := s.procs[id].pc;
    var s' := LoadStep(codec, s, id, bytes);
    if MoreRead(Content(s.fs, from), got, bytes).None? {
      assert from.Some? ==> got == s.fs.data[from.value];
    }
    HolderMove(codec, s, id, s'.procs[id].pc, s'.fs.holder);
  }

  lemma WriteKeepsInv(codec: Codec, s: System, id: Pid, bytes: nat)
    requires Inv(codec, s) && id in s.procs && s.procs[id].pc.Writing?
    ensures Inv(codec, WriteStep(s, id, bytes))
  {
    assert ProcOk(codec, s, id);
    var Writing(into, body, written) := s.procs[id].pc;
    var s' := WriteStep(s, id, bytes);
    if written >= |body| {
      assert body[..written] == body;
      HolderMove(codec, s, id, Synced(into, body), s.fs.holder);
    } else {
      var to := Min(|body|, written + bytes);
      assert body[..written] + body[written..to] == body[..to];
      assert s'.procs[id].pc == Writing(into, body, to);
      TempMove(codec, s, id, Writing(into, body, to), s'.fs, into, s.fs.data[into] + body[written..to]);
    }
  }

  lemma OpenTempKeepsInv(codec: Codec, s: System, id: Pid)
    requires Inv(codec, s) && id in s.procs && s.procs[id].pc.Assembling?
    ensures Inv(codec, OpenTemp(s, id))
  {
    assert ProcOk(codec, s, id);
    var s' := OpenTemp(s, id);
    var pc := s'.procs[id].pc;
    TempMove(codec, s, id, pc, s'.fs, pc.into, []);
  }

  lemma ReadKeepsInv(codec: Codec, s: System, id: Pid, bytes: nat)
    requires Inv(codec, s) && id in s.procs && s.procs[id].pc.ReadLoading?
    ensures Inv(codec, ReadStep(codec, s, id, bytes))
  {
    assert ProcOk(codec, s, id);
    var ReadLoading(from, got, at) := s.procs[id].pc;
    var s' := ReadStep(codec, s, id, bytes);
    if MoreRead(Content(s.fs, from), got, bytes).None? {
      assert from.Some? ==> got == s.fs.data[from.value];
    }
    HolderMove(codec, s, id, s'.procs[id].pc, s'.fs.holder);
  }

  lemma FailKeepsInv(codec: Codec, s: System, id: Pid)
    requires Inv(codec, s) && id in s.procs && (s.procs[id].pc.Locking? || Critical(s.procs[id].pc)) && !s.procs[id].pc.Installed?
    ensures Inv(codec, Failed(s, id))
  {
    assert ProcOk(codec, s, id);
    HolderMove(codec, s, id, Updated(false), Unlocked(s.fs, id).holder);
  }

  /** Reads fail without a lock to release. */
  lemma ReadFailKeepsInv(codec: Codec, s: System, id: Pid, at: nat)
    requires Inv(codec, s) && id in s.procs && (s.procs[id].pc.ReadOpening? || s.procs[id].pc.ReadLoading?)
    requires at < |s.versions|
    ensures Inv(codec, Moved(s, id, ReadDone(true, None, at), s.fs))
  {
    assert ProcOk(codec, s, id);
    HolderMove(codec, s, id, ReadDone(true, None, at), s.fs.holder);
  }

  /** Steps to the next phase: the lock taken or let go, a file opened. */
  lemma PhaseKeepsInv(codec: Codec, s: System, id: Pid)
    requires Inv(codec, s) && Enabled(s, Step(id, 0, false))
    requires var pc := s.procs[id].pc; pc.Locking? || pc.Opening? || pc.Installed? || pc.ReadOpening?
    ensures Inv(codec, Stepped(codec, s, id, 0, false))
  {
    assert ProcOk(codec, s, id);
    var s' := Stepped(codec, s, id, 0, false);
    HolderMove(codec, s, id, s'.procs[id].pc, s'.fs.holder);
  }

  lemma StepKeepsInv(codec: Codec, s: System, id: Pid, bytes: nat, fails: bool)
    requires Inv(codec, s) && Enabled(s, Step(id, bytes, fails))
    ensures Inv(codec, Stepped(codec, s, id, bytes, fails))
  {
    var pc := s.procs[id].pc;
    match pc {
      case Updated(_) =>
      case ReadDone(_, _, _) =>
      case Dead =>
      case Installed => PhaseKeepsInv(codec, s, id);
      case ReadOpening =>
        if fails { ReadFailKeepsInv(codec, s, id, |s.versions| - 1); } else { PhaseKeepsInv(codec, s, id); }
      case ReadLoading(_, _, at) =>
        assert ProcOk(codec, s, id);
        if fails { ReadFailKeepsInv(codec, s, id, at); } else { ReadKeepsInv(codec, s, id, bytes); }
      case _ =>
        if fails { FailKeepsInv(codec, s, id); }
        else { UpdaterKeepsInv(codec, s, id, bytes); }
    }
  }

  lemma UpdaterKeepsInv(codec: Codec, s: System, id: Pid, bytes: nat)
    requires Inv(codec, s) && Enabled(s, Step(id, bytes, false))
    requires s.procs[id].pc.Locking? || (Critical(s.procs[id].pc) && !s.procs[id].pc.Installed?)
    ensures Inv(codec, Stepped(codec, s, id, bytes, false))
  {
    match s.procs[id].pc {
      case Loading(_, _) => LoadKeepsInv(codec, s, id, bytes);
      case Assembling(_) => OpenTempKeepsInv(codec, s, id);
      case Writing(_, _, _) => WriteKeepsInv(codec, s, id, bytes);
      case Synced(_, _) => RenameKeepsInv(codec, s, id);
      case _ => PhaseKeepsInv(codec, s, id);
    }
  }

  lemma ApplyKeepsInv(codec: Codec, s: System, e: Event)
    requires Inv(codec, s) && Enabled(s, e)
    ensures Inv(codec, Apply(codec, s, e))
  {
    match e
    case Step(id, bytes, fails) => StepKeepsInv(codec, s, id, bytes, fails);
    case Die(id) =>
      assert ProcOk(codec, s, id);
      HolderMove(codec, s, id, Dead, Unlocked(s.fs, id).holder);
    case _ =>
      var s' := Apply(codec, s, e);
      forall i | 0 <= i < |s'.log| ensures CommitOk(codec, s', i) { assert CommitOk(codec, s, i); }
      forall i | 0 <= i < |s.log| ensures s.log[i] in s.procs { assert CommitOk(codec, s, i); }
      forall p | p in s'.procs ensures ProcOk(codec, s', p) {
        if p != e.id { assert ProcOk(codec, s, p); assert PcOk(codec, s', p); }
      }
  }

  lemma {:induction false} RunKeepsInv(codec: Codec, s: System, es: seq<Event>)
    requires Inv(codec, s)
    ensures Run(codec, s, es).Some? ==> Inv(codec, Run(codec, s, es).value)
    decreases |es|
  {
    if es != [] && Enabled(s, es[0]) {
      ApplyKeepsInv(codec, s, es[0]);
      RunKeepsInv(codec, Apply(codec, s, es[0]), es[1..]);
    }
  }

  /****** what follows for every run ******/

  /** The changes of the updaters in `log`, applied in that order. */
  ghost function Fold(procs: map<Pid, Proc>, start: Document, log: seq<Pid>): Document
    requires forall p | p in log :: p in procs
  {
    if log == [] then start
    else procs[Last(log)].change(Fold(procs, start, log[..|log| - 1]))
  }

  lemma {:induction false} VersionIsFold(codec: Codec, s: System, start: Document, n: nat)
    requires RoundTrips(codec) && LogOk(codec, s) && n <= |s.log|
    requires Meaning(codec, s.versions[0]) == Some(start)
    ensures forall p | p in s.log[..n] :: p in s.procs
    ensures Meaning(codec, s.versions[n]) == Some(Fold(s.procs, start, s.log[..n]))
  {
    if n > 0 {
      VersionIsFold(codec, s, start, n - 1);
      assert CommitOk(codec, s, n - 1);
      assert s.log[..n][..n - 1] == s.log[..n - 1];
    }
  }

  /**
   In every run the path names one whole document: the initial one with the changes of the
   committed updaters applied in rename order.  Nothing commits over a file that does not parse.
   */
  lemma FileIsFoldOfCommits(codec: Codec, s0: System, es: seq<Event>)
    requires RoundTrips(codec) && Initial(s0) && Run(codec, s0, es).Some?
    ensures var s := Run(codec, s0, es).value;
            var start := Meaning(codec, Content(s0.fs, s0.fs.file));
            && (start.None? ==> s.log == [] && Content(s.fs, s.fs.file) == Content(s0.fs, s0.fs.file))
            && (start.Some? ==>
                  && (forall p | p in s.log :: p in s.procs)
                  && Meaning(codec, Content(s.fs, s.fs.file)) == Some(Fold(s.procs, start.value, s.log)))
  {
    assert forall id | id in s0.procs :: ProcOk(codec, s0, id);
    RunKeepsInv(codec, s0, es);
    FirstVersionStays(codec, s0, es);
    var s := Run(codec, s0, es).value;
    if |s.log| > 0 {
      assert CommitOk(codec, s, 0);
    }
    if Meaning(codec, s.versions[0]).Some? {
      VersionIsFold(codec, s, Meaning(codec, s.versions[0]).value, |s.log|);
      assert s.log[..|s.log|] == s.log;
    }
  }

  lemma {:induction false} FirstVersionStays(codec: Codec, s: System, es: seq<Event>)
    requires s.versions != [] && Run(codec, s, es).Some?
    ensures var s' := Run(codec, s, es).value; s'.versions != [] && s'.versions[0] == s.versions[0]
    decreases |es|
  {
    if es != [] {
      FirstVersionStays(codec, Apply(codec, s, es[0]), es[1..]);
    }
  }

  /** No lost update: in every run, an updater that reported success committed exactly once. */
  lemma SuccessCommitsOnce(codec: Codec, s0: System, es: seq<Event>, id: Pid)
    requires Initial(s0) && Run(codec, s0, es).Some?
    requires id in Run(codec, s0, es).value.procs && Run(codec, s0, es).value.procs[id].pc == Updated(true)
    ensures var log := Run(codec, s0, es).value.log;
            exists i :: 0 <= i < |log| && log[i] == id && forall j | 0 <= j < |log| && log[j] == id :: j == i
  {
    RunKeepsInv(codec, s0, es);
    var s := Run(codec, s0, es).value;
    assert ProcOk(codec, s, id);
    OnceInLog(s.log, id);
  }

  lemma OnceInLog(log: seq<Pid>, id: Pid)
    requires id in log && forall i, j | 0 <= i < j < |log| :: log[i] != log[j]
    ensures exists i :: 0 <= i < |log| && log[i] == id && forall j | 0 <= j < |log| && log[j] == id :: j == i
  {
    var i :| 0 <= i < |log| && log[i] == id;
  }

  /** And one that reported failure committed nothing. */
  lemma FailureCommitsNothing(codec: Codec, s0: System, es: seq<Event>, id: Pid)
    requires Initial(s0) && Run(codec, s0, es).Some?
    requires id in Run(codec, s0, es).value.procs && Run(codec, s0, es).value.procs[id].pc == Updated(false)
    ensures id !in Run(codec, s0, es).value.log
  {
    RunKeepsInv(codec, s0, es);
    assert ProcOk(codec, Run(codec, s0, es).value, id);
  }

  /**
   A lock-free reader none of whose calls failed gets what the version current when it opened the
   file says, whole: its document, or that it does not parse.
   */
  lemma ReaderSeesOneVersion(codec: Codec, s0: System, es: seq<Event>, id: Pid)
    requires Initial(s0) && Run(codec, s0, es).Some?
    requires id in Run(codec, s0, es).value.procs && Run(codec, s0, es).value.procs[id].pc.ReadDone?
    ensures var s := Run(codec, s0, es).value;
            var ReadDone(failed, result, at) := s.procs[id].pc;
            at < |s.versions| && result == if failed then None else Meaning(codec, s.versions[at])
  {
    RunKeepsInv(codec, s0, es);
    assert ProcOk(codec, Run(codec, s0, es).value, id);
  }

  /** Which is the initial document with the first `at` committed changes, or the error it started with. */
  lemma ReaderSeesAFold(codec: Codec, s0: System, es: seq<Event>, id: Pid)
    requires RoundTrips(codec) && Initial(s0) && Run(codec, s0, es).Some?
    requires id in Run(codec, s0, es).value.procs && Run(codec, s0, es).value.procs[id].pc.ReadDone?
    requires !Run(codec, s0, es).value.procs[id].pc.failed
    ensures var s := Run(codec, s0, es).value;
            var ReadDone(_, result, at) := s.procs[id].pc;
            var start := Meaning(codec, Content(s0.fs, s0.fs.file));
            && at <= |s.log| && (forall p | p in s.log[..at] :: p in s.procs)
            && (start.None? ==> result.None?)
            && (start.Some? ==> result == Some(Fold(s.procs, start.value, s.log[..at])))
  {
    RunKeepsInv(codec, s0, es);
    FirstVersionStays(codec, s0, es);
    ReaderSeesOneVersion(codec, s0, es, id);
    FoldAt(codec, Run(codec, s0, es).value, Run(codec, s0, es).value.procs[id].pc.at);
  }

  lemma FoldAt(codec: Codec, s: System, n: nat)
    requires RoundTrips(codec) && s.versions != [] && LogOk(codec, s) && n < |s.versions|
    ensures n <= |s.log| && forall p | p in s.log[..n] :: p in s.procs
    ensures var start := Meaning(codec, s.versions[0]);
            && (start.None? ==> Meaning(codec, s.versions[n]).None?)
            && (start.Some? ==> Meaning(codec, s.versions[n]) == Some(Fold(s.procs, start.value, s.log[..n])))
  {
    if |s.log| > 0 { assert CommitOk(codec, s, 0); }
    if Meaning(codec, s.versions[0]).Some? {
      VersionIsFold(codec, s, Meaning(codec, s.versions[0]).value, n);
    }
  }

  /****** no file, or nothing in it ******/

  predicate Nothing(content: Option<Bytes>) { content.None? || content == Some([]) }

  /**
   Starting from no file, or an empty one: the path stays as it was until the first commit, and then
   names the commits folded over no records at all.
   */
  lemma FromNothing(codec: Codec, s0: System, es: seq<Event>)
    requires RoundTrips(codec) && Initial(s0) && Run(codec, s0, es).Some? && Nothing(Content(s0.fs, s0.fs.file))
    ensures var s := Run(codec, s0, es).value;
            && (forall p | p in s.log :: p in s.procs)
            && Content(s.fs, s.fs.file) ==
               if s.log == [] then Content(s0.fs, s0.fs.file) else Some(codec.encode(Fold(s.procs, [], s.log)))
  {
    FileIsFoldOfCommits(codec, s0, es);
    RunKeepsInv(codec, s0, es);
    FirstVersionStays(codec, s0, es);
    var s := Run(codec, s0, es).value;
    if s.log != [] {
      var n := |s.log| - 1;
      assert CommitOk(codec, s, n);
      VersionIsFold(codec, s, [], n);
    }
  }

  /** And a reader that did not fail gets the commits there were when it opened the file. */
  lemma ReaderFromNothing(codec: Codec, s0: System, es: seq<Event>, id: Pid)
    requires RoundTrips(codec) && Initial(s0) && Run(codec, s0, es).Some? && Nothing(Content(s0.fs, s0.fs.file))
    requires id in Run(codec, s0, es).value.procs && Run(codec, s0, es).value.procs[id].pc.ReadDone?
    requires !Run(codec, s0, es).value.procs[id].pc.failed
    ensures var s := Run(codec, s0, es).value;
            var ReadDone(_, result, at) := s.procs[id].pc;
            at <= |s.log| && (forall p | p in s.log[..at] :: p in s.procs) && result == Some(Fold(s.procs, [], s.log[..at]))
  {
    ReaderSeesAFold(codec, s0, es, id);
  }

  /****** a process that nothing stops ******/

  function Steps(id: Pid, bytes: nat, k: nat): seq<Event> {
    if k == 0 then [] else [Step(id, bytes, false)] + Steps(id, bytes, k - 1)
  }

  lemma Next(codec: Codec, s: System, e: Event, es: seq<Event>)
    requires s.versions != [] && Enabled(s, e)
    ensures Run(codec, s, [e] + es) == Run(codec, Apply(codec, s, e), es)
  {
    assert ([e] + es)[1..] == es;
  }

  lemma OneMore(codec: Codec, s: System, id: Pid, bytes: nat, k: nat)
    requires s.versions != [] && Enabled(s, Step(id, bytes, false))
    ensures Run(codec, s, Steps(id, bytes, k + 1)) == Run(codec, Stepped(codec, s, id, bytes, false), Steps(id, bytes, k))
  {
    Next(codec, s, Step(id, bytes, false), Steps(id, bytes, k));
  }

  function Rank(s: System, pc: Pc): nat {
    match pc
    case Opening => 7
    case Loading(from, got) => if MoreRead(Content(s.fs, from), got, 0).Some? then 6 else 5
    case Assembling(_) => 4
    case Writing(_, body, written) => if written < |body| then 3 else 2
    case _ => 1
  }

  /** Large enough to read the current version, or write its change, in one call. */
  predicate Ample(codec: Codec, s: System, change: Change, doc: Document, bytes: nat)
    requires s.versions != []
  {
    && (Last(s.versions).Some? ==> |Last(s.versions).value| <= bytes)
    && |codec.encode(change(doc))| <= bytes
  }

  /** One step of the lock's holder short of the rename: it goes on, and the path is as it was. */
  lemma HolderGoesOn(codec: Codec, s: System, id: Pid, bytes: nat, doc: Document)
    requires Inv(codec, s) && id in s.procs && Critical(s.procs[id].pc) && !s.procs[id].pc.Synced? && !s.procs[id].pc.Installed?
    requires Meaning(codec, Last(s.versions)) == Some(doc) && Ample(codec, s, s.procs[id].change, doc, bytes)
    ensures var s' := Stepped(codec, s, id, bytes, false);
            && id in s'.procs && Critical(s'.procs[id].pc) && !s'.procs[id].pc.Installed?
            && s'.procs[id].change == s.procs[id].change && s'.versions == s.versions && s'.log == s.log
            && Rank(s', s'.procs[id].pc) < Rank(s, s.procs[id].pc)
  {
    assert ProcOk(codec, s, id);
    var pc := s.procs[id].pc;
    if pc.Loading? && MoreRead(Content(s.fs, pc.from), pc.got, bytes).None? {
      assert pc.from.Some? ==> pc.got == s.fs.data[pc.from.value];
    }
  }

  /** The holder, left to itself, commits its change of the current document and lets the lock go. */
  lemma {:induction false} HolderCommits(codec: Codec, s: System, id: Pid, bytes: nat, doc: Document) returns (k: nat)
    requires Inv(codec, s) && id in s.procs && Critical(s.procs[id].pc) && !s.procs[id].pc.Installed?
    requires Meaning(codec, Last(s.versions)) == Some(doc) && Ample(codec, s, s.procs[id].change, doc, bytes)
    ensures Run(codec, s, Steps(id, bytes, k)).Some?
    ensures Committed(codec, s, Run(codec, s, Steps(id, bytes, k)).value, id, doc)
    decreases Rank(s, s.procs[id].pc)
  {
    var s1 := Stepped(codec, s, id, bytes, false);
    StepKeepsInv(codec, s, id, bytes, false);
    if s.procs[id].pc.Synced? {
      SyncedCommits(codec, s, id, bytes, doc);
      k := 2;
    } else {
      HolderGoesOn(codec, s, id, bytes, doc);
      k := HolderCommits(codec, s1, id, bytes, doc);
      OneMore(codec, s, id, bytes, k);
      k := k + 1;
    }
  }

  /** The last two steps: the rename, and letting go of the lock. */
  lemma SyncedCommits(codec: Codec, s: System, id: Pid, bytes: nat, doc: Document)
    requires Inv(codec, s) && id in s.procs && s.procs[id].pc.Synced? && Meaning(codec, Last(s.versions)) == Some(doc)
    ensures Run(codec, s, Steps(id, bytes, 2)).Some?
    ensures Committed(codec, s, Run(codec, s, Steps(id, bytes, 2)).value, id, doc)
  {
    var e := Step(id, bytes, false);
    var s1 := Stepped(codec, s, id, bytes, false);
    RenameStep(codec, s, id, bytes, doc);
    assert Steps(id, bytes, 1) == [e] + Steps(id, bytes, 0) && Steps(id, bytes, 2) == [e] + Steps(id, bytes, 1);
    Next(codec, s1, e, []);
    Next(codec, s, e, Steps(id, bytes, 1));
  }

  lemma RenameStep(codec: Codec, s: System, id: Pid, bytes: nat, doc: Document)
    requires Inv(codec, s) && id in s.procs && s.procs[id].pc.Synced? && Meaning(codec, Last(s.versions)) == Some(doc)
    ensures var s1 := Stepped(codec, s, id, bytes, false);
            && id in s1.procs && s1.procs[id].pc.Installed? && s1.log == s.log + [id] && s1.versions != []
            && Content(s1.fs, s1.fs.file) == Some(codec.encode(s.procs[id].change(doc)))
  {
    assert ProcOk(codec, s, id);
  }

  ghost predicate Committed(codec: Codec, s: System, s': System, id: Pid, doc: Document)
    requires id in s.procs
  {
    && id in s'.procs && s'.procs[id].pc == Updated(true) && s'.log == s.log + [id] && s'.fs.holder.None?
    && Content(s'.fs, s'.fs.file) == Some(codec.encode(s.procs[id].change(doc)))
  }

  /**
   An updater that finds the lock free and the current file readable, with nothing failing and nobody
   moving meanwhile, commits its change of it.
   */
  lemma UpdaterCommits(codec: Codec, s: System, id: Pid, bytes: nat, doc: Document) returns (k: nat)
    requires Inv(codec, s) && id in s.procs && s.procs[id].pc.Locking? && s.fs.holder.None?
    requires Meaning(codec, Content(s.fs, s.fs.file)) == Some(doc) && Ample(codec, s, s.procs[id].change, doc, bytes)
    ensures Run(codec, s, Steps(id, bytes, k)).Some?
    ensures Committed(codec, s, Run(codec, s, Steps(id, bytes, k)).value, id, doc)
  {
    StepKeepsInv(codec, s, id, bytes, false);
    var s1 := Stepped(codec, s, id, bytes, false);
    k := HolderCommits(codec, s1, id, bytes, doc);
    Next(codec, s, Step(id, bytes, false), Steps(id, bytes, k));
    k := k + 1;
  }

  /** The first update ever: with no file, or an empty one, it commits its change of no records. */
  lemma FirstUpdateCommits(codec: Codec, s: System, id: Pid, bytes: nat) returns (k: nat)
    requires Inv(codec, s) && id in s.procs && s.procs[id].pc.Locking? && s.fs.holder.None?
    requires Nothing(Content(s.fs, s.fs.file)) && |codec.encode(s.procs[id].change([]))| <= bytes
    ensures Run(codec, s, Steps(id, bytes, k)).Some?
    ensures var s' := Run(codec, s, Steps(id, bytes, k)).value;
            && id in s'.procs && s'.procs[id].pc == Updated(true) && s'.log == s.log + [id]
            && Content(s'.fs, s'.fs.file) == Some(codec.encode(s.procs[id].change([])))
  {
    k := UpdaterCommits(codec, s, id, bytes, []);
  }

  /** A reader left to itself gets what the current file says. */
  lemma ReaderReads(codec: Codec, s: System, id: Pid, bytes: nat) returns (k: nat)
    requires Inv(codec, s) && id in s.procs && s.procs[id].pc.ReadOpening?
    requires Last(s.versions).Some? ==> |Last(s.versions).value| <= bytes
    ensures Run(codec, s, Steps(id, bytes, k)).Some?
    ensures var s' := Run(codec, s, Steps(id, bytes, k)).value;
            id in s'.procs && s'.procs[id].pc == ReadDone(false, Meaning(codec, Content(s.fs, s.fs.file)), |s.versions| - 1)
  {
    var e := Step(id, bytes, false);
    var s1 := Stepped(codec, s, id, bytes, false);
    var s2 := Stepped(codec, s1, id, bytes, false);
    StepKeepsInv(codec, s, id, bytes, false);
    assert Steps(id, bytes, 1) == [e] + Steps(id, bytes, 0);
    assert Steps(id, bytes, 2) == [e] + Steps(id, bytes, 1);
    if MoreRead(Content(s.fs, s.fs.file), [], bytes).Some? {
      var s3 := Stepped(codec, s2, id, bytes, false);
      assert s2.procs[id].pc == ReadLoading(s.fs.file, Content(s.fs, s.fs.file).value, |s.versions| - 1);
      assert Steps(id, bytes, 3) == [e] + Steps(id, bytes, 2);
      Next(codec, s2, e, []);
      Next(codec, s1, e, Steps(id, bytes, 1));
      Next(codec, s, e, Steps(id, bytes, 2));
      k := 3;
    } else {
      assert Content(s.fs, s.fs.file).Some? ==> Content(s.fs, s.fs.file).value == [];
      Next(codec, s1, e, []);
      Next(codec, s, e, Steps(id, bytes, 1));
      k := 2;
    }
  }

  /** An inode the path has named is never written again, by any event of any run. */
  lemma NamedInodesAreFrozen(codec: Codec, s0: System, es: seq<Event>, e: Event, i: Inode)
    requires Initial(s0) && Run(codec, s0, es).Some?
    requires var s := Run(codec, s0, es).value; s.versions != [] && Enabled(s, e) && i in s.home
    ensures var s := Run(codec, s0, es).value;
            var s' := Apply(codec, s, e);
            i in s.fs.data && i in s'.fs.data && s'.fs.data[i] == s.fs.data[i] && i in s'.home
  {
    RunKeepsInv(codec, s0, es);
    ApplyFreezes(codec, Run(codec, s0, es).value, e, i);
  }

  lemma ApplyFreezes(codec: Codec, s: System, e: Event, i: Inode)
    requires Inv(codec, s) && Enabled(s, e) && i in s.home
    ensures var s' := Apply(codec, s, e);
            i in s.fs.data && i in s'.fs.data && s'.fs.data[i] == s.fs.data[i] && i in s'.home
  {
    if e.Step? {
      assert ProcOk(codec, s, e.id);
      assert s.procs[e.id].pc.Writing? ==> s.procs[e.id].pc.into !in s.home;
      assert s.fs.nextInode !in s.home;
    }
  }

  /** At most one updater is between taking the lock and letting it go. */
  lemma UpdatesExclude(codec: Codec, s0: System, es: seq<Event>, a: Pid, b: Pid)
    requires Initial(s0) && Run(codec, s0, es).Some? && a != b
    ensures var s := Run(codec, s0, es).value;
            a in s.procs && b in s.procs ==> !(Critical(s.procs[a].pc) && Critical(s.procs[b].pc))
  {
    RunKeepsInv(codec, s0, es);
    var s := Run(codec, s0, es).value;
    if a in s.procs && b in s.procs {
      assert ProcOk(codec, s, a) && ProcOk(codec, s, b);
    }
  }

  /****** update itself, one call of it ******/

  datatype Outcome = Done | Unreadable | Killed

  /** The two names and what they hold, while this process has the lock. */
  class Directory {
    var file: Option<Bytes>
    var temp: Option<Bytes>

    constructor (file: Option<Bytes>, temp: Option<Bytes>)
      ensures this.file == file && this.temp == temp
    {
      this.file, this.temp := file, temp;
    }

    /**
     Read, change, assemble in pieces of `piece` bytes, rename.  The process is killed after
     `budget` calls; wherever that is, the path names the old document or the new one.
     */
    method Update(codec: Codec, change: Change, piece: nat, budget: nat) returns (r: Outcome)
      requires piece > 0
      modifies this
      ensures var before := Meaning(codec, old(file));
              && (r.Unreadable? ==> before.None?)
              && (before.None? ==> file == old(file) && !r.Done?)
              && (before.Some? ==> file == old(file) || file == Some(codec.encode(change(before.value))))
              && (r.Done? ==> before.Some? && file == Some(codec.encode(change(before.value))))
              && (before.Some? && budget >= |codec.encode(change(before.value))| + 3 ==> r.Done?)
              && (before.None? && budget > 0 ==> r.Unreadable?)
      // no file, or an empty one, is an empty document
      ensures Nothing(old(file)) && budget >= |codec.encode(change([]))| + 3 ==>
                r.Done? && file == Some(codec.encode(change([])))
    {
      if budget == 0 {
        return Killed;
      }
      var entries := Meaning(codec, file);
      if entries.None? {
        return Unreadable;
      }
      var body := codec.encode(change(entries.value));
      temp := Some([]);
      var written, calls := 0, 1;
      while written < |body|
        invariant written <= |body| && temp == Some(body[..written]) && file == old(file) && calls <= written + 1
      {
        if calls >= budget {
          return Killed;
        }
        var to := Min(|body|, written + piece);
        assert body[..written] + body[written..to] == body[..to];
        temp := Some(temp.value + body[written..to]);
        written, calls := to, calls + 1;
      }
      if calls >= budget {
        return Killed;
      }
      assert body[..written] == body;
      file, temp := temp, None;
      r := if calls + 1 >= budget then Killed else Done;
    }
  }
}
