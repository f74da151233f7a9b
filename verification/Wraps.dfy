/**
 `wraps.toml`: the enrolled factors of an encrypted vault, edited by any number of sessions each
 holding a copy that others may have made stale.  An edit is a transaction under the vault lock,
 on the file as it is on disk.
 */
module Wraps {
  import opened Common

  type Salt = string

  /**
   A wrapped key.  `enrolledUnder` is the salt the security key's wrapping key was derived from;
   it is part of what the ciphertext means, and no file records it.
   */
  datatype Wrap =
    | Password(secret: string)
    | SecurityKey(id: string, title: Option<string>, enrolledUnder: Salt)

  datatype Content = Content(salt: Option<Salt>, wraps: seq<Wrap>)

  datatype Error = NoSalt | SaltChanged | LastFactor | NotEnrolled

  predicate SameFactor(a: Wrap, b: Wrap) {
    (a.Password? && b.Password?) || (a.SecurityKey? && b.SecurityKey? && a.id == b.id)
  }

  predicate HasSecurityKey(wraps: seq<Wrap>) { exists w | w in wraps :: w.SecurityKey? }

  /** The first position holding a wrap of the same factor, or the length. */
  function Position(wraps: seq<Wrap>, w: Wrap): (p: nat)
    ensures p <= |wraps|
    ensures p < |wraps| ==> SameFactor(wraps[p], w)
    ensures forall i | 0 <= i < p :: !SameFactor(wraps[i], w)
  {
    if wraps == [] || SameFactor(wraps[0], w) then 0 else 1 + Position(wraps[1..], w)
  }

  /** The wraps of every other factor, in order. */
  function Others(wraps: seq<Wrap>, w: Wrap): (r: seq<Wrap>)
    ensures forall x :: x in r <==> x in wraps && !SameFactor(x, w)
  {
    if wraps == [] then []
    else
      var rest := Others(wraps[1..], w);
      assert wraps == [wraps[0]] + wraps[1..];
      if SameFactor(wraps[0], w) then rest else [wraps[0]] + rest
  }

  function Added(f: Content, w: Wrap, salt: Option<Salt>): Result<Content, Error> {
    if w.Password? then
      var p := Position(f.wraps, w);
      Ok(f.(wraps := if p < |f.wraps| then f.wraps[p := w] else f.wraps + [w]))
    else if salt.None? then Err(NoSalt)
    else if f.salt.Some? && f.salt != salt then Err(SaltChanged)
    else Ok(Content(salt, f.wraps + [w]))
  }

  function Removed(f: Content, w: Wrap): Result<Content, Error> {
    var rest := Others(f.wraps, w);
    if rest == [] then Err(LastFactor)
    else Ok(Content(if HasSecurityKey(rest) then f.salt else None, rest))
  }

  function Renamed(f: Content, id: string, title: string): Result<Content, Error> {
    var p := Position(f.wraps, SecurityKey(id, None, ""));
    if p < |f.wraps| then Ok(f.(wraps := f.wraps[p := f.wraps[p].(title := Some(title))])) else Err(NotEnrolled)
  }

  /** The file in memory, edited in place. */
  class WrapsFile {
    var salt: Option<Salt>
    var wraps: seq<Wrap>

    function View(): Content
      reads this
    {
      Content(salt, wraps)
    }

    constructor (f: Content)
      ensures View() == f
    {
      salt, wraps := f.salt, f.wraps;
    }

    method UpsertPassword(w: Wrap)
      requires w.Password?
      modifies this
      ensures Ok(View()) == Added(old(View()), w, None)
    {
      var p := Position(wraps, w);
      if p < |wraps| {
        wraps := wraps[p := w];
      } else {
        wraps := wraps + [w];
      }
    }

    method AddFactor(w: Wrap, enrolSalt: Option<Salt>) returns (r: Result<(), Error>)
      modifies this
      ensures r.Ok? ==> Added(old(View()), w, enrolSalt) == Ok(View())
      ensures r.Err? ==> Added(old(View()), w, enrolSalt) == Err(r.error) && View() == old(View())
    {
      if w.Password? {
        UpsertPassword(w);
        return Ok(());
      }
      if enrolSalt.None? {
        return Err(NoSalt);
      }
      if salt.Some? && salt != enrolSalt {
        return Err(SaltChanged);
      }
      if salt.None? {
        salt := enrolSalt;
      }
      wraps := wraps + [w];
      r := Ok(());
    }

    method ClearSaltIfUnused()
      modifies this
      ensures wraps == old(wraps) && salt == if HasSecurityKey(wraps) then old(salt) else None
    {
      if !HasSecurityKey(wraps) {
        salt := None;
      }
    }

    method RemoveFactor(w: Wrap) returns (r: Result<(), Error>)
      modifies this
      ensures r.Ok? ==> Removed(old(View()), w) == Ok(View())
      ensures r.Err? ==> Removed(old(View()), w) == Err(r.error) && View() == old(View())
    {
      var kept: seq<Wrap> := [];
      var i := |wraps|;
      while i > 0
        invariant 0 <= i <= |wraps| && wraps == old(wraps) && salt == old(salt)
        invariant kept == Others(wraps[i..], w)
      {
        i := i - 1;
        assert wraps[i..][1..] == wraps[i + 1..];
        if !SameFactor(wraps[i], w) {
          kept := [wraps[i]] + kept;
        }
      }
      assert wraps[0..] == wraps;
      if |kept| == 0 {
        return Err(LastFactor);
      }
      wraps := kept;
      ClearSaltIfUnused();
      r := Ok(());
    }

    method RenameFactor(id: string, title: string) returns (r: Result<(), Error>)
      modifies this
      ensures r.Ok? ==> Renamed(old(View()), id, title) == Ok(View())
      ensures r.Err? ==> Renamed(old(View()), id, title) == Err(r.error) && View() == old(View())
    {
      var p := Position(wraps, SecurityKey(id, None, ""));
      if p == |wraps| {
        return Err(NotEnrolled);
      }
      wraps := wraps[p := wraps[p].(title := Some(title))];
      r := Ok(());
    }
  }

  /****** sessions over one vault ******/

  type Dek = nat

  /**
   The vault as it is on disk: None while it is not encrypted, else the key its files are under
   and wraps.toml.
   */
  datatype Vault = Vault(dek: Dek, file: Content)

  /** A session's copy of the file, the key it holds, and an enrolment waiting for a touch. */
  datatype Session = Session(dek: Dek, copy: Content, enrolling: Option<(string, Salt)>)

  datatype System = System(vault: Option<Vault>, sessions: map<nat, Session>)

  datatype Event =
    | Open(id: nat, session: Session)                          // any copy, however old
    | EncryptWithPassword(id: nat, dek: Dek, secret: string)
    | EncryptWithKey(id: nat, dek: Dek, newTitle: Option<string>)
    | Disable(id: nat)
    | StartEnrol(id: nat, credential: string, newSalt: Salt)   // used if the copy holds no salt
    | AbandonEnrol(id: nat)
    | FinishEnrol(id: nat, newTitle: Option<string>)
    | SetPassword(id: nat, secret: string)
    | RemoveFactor(id: nat, factor: Wrap)
    | RenameFactor(id: nat, credential: string, title: string)

  const EMPTY := Content(None, [])

  function EnrolSalt(copy: Content, newSalt: Salt): Salt {
    if copy.salt.Some? then copy.salt.value else newSalt
  }

  /** The wrap a waiting enrolment makes: its key is derived from the salt it was given. */
  function EnrolledWrap(x: Session, newTitle: Option<string>): Wrap
    requires x.enrolling.Some?
  {
    SecurityKey(x.enrolling.value.0, newTitle, x.enrolling.value.1)
  }

  function Idle(s: System, id: nat): System
    requires id in s.sessions
  {
    s.(sessions := s.sessions[id := s.sessions[id].(enrolling := None)])
  }

  function Installed(s: System, id: nat, dek: Dek, f: Content): System {
    System(Some(Vault(dek, f)), s.sessions[id := Session(dek, f, None)])
  }

  /** `update_wraps`: applied only under the session's key, to the file on disk; the copy follows. */
  function Commit(s: System, id: nat, edited: Content -> Result<Content, Error>): System
    requires id in s.sessions
  {
    if s.vault.None? || s.vault.value.dek != s.sessions[id].dek then Idle(s, id)
    else
      match edited(s.vault.value.file)
      case Err(_) => Idle(s, id)
      case Ok(f) => Installed(s, id, s.vault.value.dek, f)
  }

  /** The first factor: a file of its own, refused if the vault is encrypted already. */
  function Encrypt(s: System, id: nat, dek: Dek, first: Wrap): System
    requires id in s.sessions
  {
    if s.vault.Some? then Idle(s, id)
    else
      match Added(EMPTY, first, s.sessions[id].copy.salt)
      case Err(_) => Idle(s, id)
      case Ok(f) => Installed(s, id, dek, f)
  }

  predicate Enabled(s: System, e: Event) {
    match e
    case Open(id, session) => id !in s.sessions && session.enrolling.None?
    case EncryptWithKey(id, _, _) => id in s.sessions && s.sessions[id].enrolling.Some?
    case AbandonEnrol(id) => id in s.sessions && s.sessions[id].enrolling.Some?
    case FinishEnrol(id, _) => id in s.sessions && s.sessions[id].enrolling.Some?
    // a form waiting for a touch takes no other edit
    case _ => e.id in s.sessions && s.sessions[e.id].enrolling.None?
  }

  function Apply(s: System, e: Event): System
    requires Enabled(s, e)
  {
    match e
    case Open(id, session) => s.(sessions := s.sessions[id := session])
    case EncryptWithPassword(id, dek, secret) => Encrypt(s, id, dek, Password(secret))
    case EncryptWithKey(id, dek, newTitle) => Encrypt(s, id, dek, EnrolledWrap(s.sessions[id], newTitle))
    case Disable(id) =>
      if s.vault.None? || s.vault.value.dek != s.sessions[id].dek then s
      else System(None, s.sessions[id := s.sessions[id].(copy := EMPTY)])
    case StartEnrol(id, credential, newSalt) =>
      var x := s.sessions[id];
      var salt := EnrolSalt(x.copy, newSalt);
      s.(sessions := s.sessions[id := x.(copy := x.copy.(salt := Some(salt)), enrolling := Some((credential, salt)))])
    case AbandonEnrol(id) => Idle(s, id)
    case FinishEnrol(id, newTitle) =>
      var x := s.sessions[id];
      Commit(s, id, f => Added(f, EnrolledWrap(x, newTitle), x.copy.salt))
    case SetPassword(id, secret) => Commit(s, id, f => Added(f, Password(secret), None))
    case RemoveFactor(id, factor) => Commit(s, id, f => Removed(f, factor))
    case RenameFactor(id, credential, title) => Commit(s, id, f => Renamed(f, credential, title))
  }

  function Run(s: System, es: seq<Event>): Option<System>
    decreases |es|
  {
    if es == [] then Some(s)
    else if Enabled(s, es[0]) then Run(Apply(s, es[0]), es[1..])
    else None
  }

  predicate OnePassword(wraps: seq<Wrap>) {
    forall i, j | 0 <= i < j < |wraps| :: !(wraps[i].Password? && wraps[j].Password?)
  }

  /** Never empty, at most one password, and every security key opens under the file's salt. */
  predicate FileOk(f: Content) {
    && f.wraps != []
    && OnePassword(f.wraps)
    && (forall w | w in f.wraps :: w.SecurityKey? ==> f.salt == Some(w.enrolledUnder))
    && (f.salt.Some? ==> HasSecurityKey(f.wraps))
  }

  /** What a waiting enrolment was derived from is the salt the commit will present. */
  predicate SessionOk(x: Session) {
    x.enrolling.Some? ==> x.copy.salt == Some(x.enrolling.value.1)
  }

  predicate Inv(s: System) {
    && (s.vault.Some? ==> FileOk(s.vault.value.file))
    && forall id | id in s.sessions :: SessionOk(s.sessions[id])
  }

  lemma AddedOk(f: Content, w: Wrap, salt: Option<Salt>)
    requires FileOk(f) || f == EMPTY
    requires Added(f, w, salt).Ok?
    requires w.SecurityKey? ==> salt == Some(w.enrolledUnder)
    ensures FileOk(Added(f, w, salt).value)
  {
    var g := Added(f, w, salt).value;
    if w.SecurityKey? {
      assert g.wraps[|f.wraps|] == w;
    } else if f.salt.Some? {
      var k :| k in f.wraps && k.SecurityKey?;
      var i :| 0 <= i < |f.wraps| && f.wraps[i] == k;
      assert g.wraps[i] == k;
    }
  }

  lemma {:induction false} OthersOnePassword(wraps: seq<Wrap>, w: Wrap)
    requires OnePassword(wraps)
    ensures OnePassword(Others(wraps, w))
    decreases |wraps|
  {
    if wraps != [] {
      var rest := Others(wraps[1..], w);
      assert OnePassword(wraps[1..]);
      OthersOnePassword(wraps[1..], w);
      forall j | 0 <= j < |rest| ensures !(wraps[0].Password? && rest[j].Password?) {
        assert rest[j] in wraps[1..];
        var k :| 0 <= k < |wraps[1..]| && wraps[1..][k] == rest[j];
        assert wraps[k + 1] == rest[j];
      }
    }
  }

  lemma RemovedOk(f: Content, w: Wrap)
    requires FileOk(f) && Removed(f, w).Ok?
    ensures FileOk(Removed(f, w).value)
  {
    OthersOnePassword(f.wraps, w);
  }

  lemma RenamedOk(f: Content, id: string, title: string)
    requires FileOk(f) && Renamed(f, id, title).Ok?
    ensures FileOk(Renamed(f, id, title).value)
  {
    var g := Renamed(f, id, title).value;
    if f.salt.Some? {
      var k :| k in f.wraps && k.SecurityKey?;
      var i :| 0 <= i < |f.wraps| && f.wraps[i] == k;
      assert g.wraps[i].SecurityKey?;
    }
  }

  lemma EncryptKeepsInv(s: System, id: nat, dek: Dek, first: Wrap)
    requires Inv(s) && id in s.sessions
    requires first.SecurityKey? ==> s.sessions[id].copy.salt == Some(first.enrolledUnder)
    ensures Inv(Encrypt(s, id, dek, first))
  {
    if s.vault.None? && Added(EMPTY, first, s.sessions[id].copy.salt).Ok? {
      AddedOk(EMPTY, first, s.sessions[id].copy.salt);
    }
  }

  lemma CommitKeepsInv(s: System, id: nat, edited: Content -> Result<Content, Error>)
    requires Inv(s) && id in s.sessions
    requires s.vault.Some? && edited(s.vault.value.file).Ok? ==> FileOk(edited(s.vault.value.file).value)
    ensures Inv(Commit(s, id, edited))
  {
  }

  lemma ApplyKeepsInv(s: System, e: Event)
    requires Inv(s) && Enabled(s, e)
    ensures Inv(Apply(s, e))
  {
    match e
    case EncryptWithPassword(id, dek, secret) => EncryptKeepsInv(s, id, dek, Password(secret));
    case EncryptWithKey(id, dek, newTitle) => EncryptKeepsInv(s, id, dek, EnrolledWrap(s.sessions[id], newTitle));
    case FinishEnrol(id, newTitle) =>
      var x := s.sessions[id];
      var wrap := EnrolledWrap(x, newTitle);
      if s.vault.Some? && Added(s.vault.value.file, wrap, x.copy.salt).Ok? {
        AddedOk(s.vault.value.file, wrap, x.copy.salt);
      }
      CommitKeepsInv(s, id, f => Added(f, wrap, x.copy.salt));
    case SetPassword(id, secret) =>
      if s.vault.Some? { AddedOk(s.vault.value.file, Password(secret), None); }
      CommitKeepsInv(s, id, f => Added(f, Password(secret), None));
    case RemoveFactor(id, factor) =>
      if s.vault.Some? && Removed(s.vault.value.file, factor).Ok? { RemovedOk(s.vault.value.file, factor); }
      CommitKeepsInv(s, id, f => Removed(f, factor));
    case RenameFactor(id, credential, title) =>
      if s.vault.Some? && Renamed(s.vault.value.file, credential, title).Ok? {
        RenamedOk(s.vault.value.file, credential, title);
      }
      CommitKeepsInv(s, id, f => Renamed(f, credential, title));
    case _ =>
  }

  /** The factor an edit names. */
  function Named(s: System, e: Event): Option<Wrap>
    requires Enabled(s, e)
  {
    match e
    case FinishEnrol(id, newTitle) => Some(EnrolledWrap(s.sessions[id], newTitle))
    case SetPassword(_, secret) => Some(Password(secret))
    case RemoveFactor(_, factor) => Some(factor)
    case RenameFactor(_, credential, _) => Some(SecurityKey(credential, None, ""))
    case _ => None
  }

  /**
   While the vault stays encrypted its key stays, and no session, however stale its copy, touches a
   factor other than the one its edit names.
   */
  lemma StepChangesOnlyItsFactor(s: System, e: Event, w: Wrap)
    requires Enabled(s, e) && s.vault.Some? && Apply(s, e).vault.Some?
    requires Named(s, e).Some? ==> !SameFactor(w, Named(s, e).value)
    ensures Apply(s, e).vault.value.dek == s.vault.value.dek
    ensures w in s.vault.value.file.wraps <==> w in Apply(s, e).vault.value.file.wraps
  {
    var f, g := s.vault.value.file, Apply(s, e).vault.value.file;
    if Named(s, e).Some? {
      var n := Named(s, e).value;
      match e {
        case FinishEnrol(id, _) => EditsKeepOthers(f, n, s.sessions[id].copy.salt, "");
        case SetPassword(_, _) => EditsKeepOthers(f, n, None, "");
        case RemoveFactor(_, _) => EditsKeepOthers(f, n, None, "");
        case RenameFactor(_, _, title) => EditsKeepOthers(f, n, None, title);
      }
      assert w in Others(f.wraps, n) <==> w in f.wraps;
      assert w in Others(g.wraps, n) <==> w in g.wraps;
    }
  }

  /** The session holds the key the vault is under: only then does an edit of it reach the file. */
  predicate Holds(s: System, id: nat) {
    id in s.sessions && s.vault.Some? && s.vault.value.dek == s.sessions[id].dek
  }

  /** The one password is the given one, where a password stood, or at the end. */
  ghost predicate PasswordSet(before: seq<Wrap>, after: seq<Wrap>, secret: string) {
    && (forall i | 0 <= i < |before| :: after != [] && i < |after| &&
          after[i] == if before[i].Password? then Password(secret) else before[i])
    && if exists w | w in before :: w.Password? then |after| == |before|
       else |after| == |before| + 1 && after[|before|] == Password(secret)
  }

  /** The first wrap of that security key has the title; the rest is as it was. */
  ghost predicate TitleSet(before: seq<Wrap>, after: seq<Wrap>, id: string, title: string) {
    && |after| == |before|
    && forall i | 0 <= i < |before| ::
         after[i] ==
         if before[i].SecurityKey? && before[i].id == id && forall j | 0 <= j < i :: !SameFactor(before[j], before[i])
         then SecurityKey(id, Some(title), before[i].enrolledUnder) else before[i]
  }

  /** What a session's step does to the vault. */
  ghost predicate Promised(s: System, e: Event, t: System)
    requires Enabled(s, e)
  {
    match e
    case EncryptWithPassword(_, dek, secret) =>
      t.vault == if s.vault.Some? then s.vault else Some(Vault(dek, Content(None, [Password(secret)])))
    case EncryptWithKey(id, dek, newTitle) =>
      var (credential, salt) := s.sessions[id].enrolling.value;
      t.vault == if s.vault.Some? then s.vault
                 else Some(Vault(dek, Content(Some(salt), [SecurityKey(credential, newTitle, salt)])))
    case Disable(id) => t.vault == if Holds(s, id) then None else s.vault
    case Open(_, _) => t.vault == s.vault
    case StartEnrol(_, _, _) => t.vault == s.vault
    case AbandonEnrol(_) => t.vault == s.vault
    case _ =>
      if !Holds(s, e.id) then t.vault == s.vault
      else
        && t.vault.Some? && t.vault.value.dek == s.vault.value.dek
        && Edited(s.vault.value.file, t.vault.value.file, s.sessions[e.id], e)
        && (t.vault != s.vault ==> e.id in t.sessions && t.sessions[e.id].copy == t.vault.value.file)
  }

  ghost predicate Edited(f: Content, g: Content, x: Session, e: Event)
    requires e.FinishEnrol? ==> x.enrolling.Some?
  {
    match e
    case FinishEnrol(_, newTitle) =>
      var (credential, salt) := x.enrolling.value;
      if f.salt.Some? && f.salt.value != salt then g == f
      else g == Content(Some(salt), f.wraps + [SecurityKey(credential, newTitle, salt)])
    case SetPassword(_, secret) => g.salt == f.salt && PasswordSet(f.wraps, g.wraps, secret)
    case RemoveFactor(_, factor) =>
      if forall w | w in f.wraps :: SameFactor(w, factor) then g == f
      else
        && (forall w :: w in g.wraps <==> w in f.wraps && !SameFactor(w, factor))
        && g.salt == if HasSecurityKey(g.wraps) then f.salt else None
    case RenameFactor(_, credential, title) => g.salt == f.salt && TitleSet(f.wraps, g.wraps, credential, title)
    case _ => g == f
  }

  /** Every step does what it promises, whatever the session's copy. */
  lemma StepTakesEffect(s: System, e: Event)
    requires Inv(s) && Enabled(s, e)
    ensures Promised(s, e, Apply(s, e))
  {
    match e
    case EncryptWithPassword(id, _, secret) => FirstIsAlone(Password(secret), s.sessions[id].copy.salt);
    case EncryptWithKey(id, _, newTitle) => FirstIsAlone(EnrolledWrap(s.sessions[id], newTitle), s.sessions[id].copy.salt);
    case SetPassword(id, secret) => if Holds(s, id) { PasswordIsSet(s.vault.value.file, secret, None); }
    case RemoveFactor(id, factor) => if Holds(s, id) { RemovalIsRefusedAlone(s.vault.value.file, factor); }
    case RenameFactor(id, credential, title) => if Holds(s, id) { TitleIsSet(s.vault.value.file, credential, title); }
    case _ =>
  }

  lemma FirstIsAlone(w: Wrap, salt: Option<Salt>)
    requires w.SecurityKey? ==> salt.Some?
    ensures Added(EMPTY, w, salt) == Ok(Content(if w.Password? then None else salt, [w]))
  {
    assert EMPTY.wraps + [w] == [w];
  }

  lemma PasswordIsSet(f: Content, secret: string, salt: Option<Salt>)
    requires OnePassword(f.wraps)
    ensures var r := Added(f, Password(secret), salt);
            r.Ok? && r.value.salt == f.salt && PasswordSet(f.wraps, r.value.wraps, secret)
  {
    var p := Position(f.wraps, Password(secret));
    if p < |f.wraps| {
      assert f.wraps[p] in f.wraps;
    }
  }

  lemma RemovalIsRefusedAlone(f: Content, w: Wrap)
    ensures Removed(f, w).Err? <==> forall x | x in f.wraps :: SameFactor(x, w)
  {
    var rest := Others(f.wraps, w);
    if rest != [] {
      assert rest[0] in rest;
    }
  }

  lemma TitleIsSet(f: Content, id: string, title: string)
    ensures var r := Renamed(f, id, title);
            if r.Ok? then r.value.salt == f.salt && TitleSet(f.wraps, r.value.wraps, id, title)
            else TitleSet(f.wraps, f.wraps, id, title)
    ensures Renamed(f, id, title).Err? <==> forall w | w in f.wraps :: w.Password? || w.id != id
  {
    var p := Position(f.wraps, SecurityKey(id, None, ""));
    if p < |f.wraps| {
      assert f.wraps[p] in f.wraps;
    }
  }

  /** Which edits are refused, and with what. */
  lemma RefusalsAreExact(f: Content, w: Wrap, salt: Option<Salt>, title: string)
    ensures Added(f, w, salt) == Err(NoSalt) <==> w.SecurityKey? && salt.None?
    ensures Added(f, w, salt) == Err(SaltChanged) <==> w.SecurityKey? && salt.Some? && f.salt.Some? && f.salt != salt
    ensures Added(f, w, salt).Err? ==> Added(f, w, salt).error in {NoSalt, SaltChanged}
    ensures Removed(f, w) == Err(LastFactor) <==> forall x | x in f.wraps :: SameFactor(x, w)
    ensures Removed(f, w).Ok? || Removed(f, w) == Err(LastFactor)
    ensures w.SecurityKey? ==>
              (Renamed(f, w.id, title) == Err(NotEnrolled) <==> forall x | x in f.wraps :: x.Password? || x.id != w.id)
              && (Renamed(f, w.id, title).Ok? || Renamed(f, w.id, title) == Err(NotEnrolled))
  {
    RemovalIsRefusedAlone(f, w);
    if w.SecurityKey? { TitleIsSet(f, w.id, title); }
  }

  /** In every run of sessions over the vault, from none encrypted, the file is sound. */
  lemma {:induction false} FactorsAreSafe(s: System, es: seq<Event>)
    requires Inv(s) && Run(s, es).Some?
    ensures Inv(Run(s, es).value)
    decreases |es|
  {
    if es != [] {
      ApplyKeepsInv(s, es[0]);
      FactorsAreSafe(Apply(s, es[0]), es[1..]);
    }
  }

  lemma FactorsAreSafeFromTheStart(es: seq<Event>)
    requires Run(System(None, map[]), es).Some?
    ensures var s := Run(System(None, map[]), es).value;
            s.vault.Some? ==> FileOk(s.vault.value.file)
  {
    FactorsAreSafe(System(None, map[]), es);
  }

  /** The wraps of every factor but one, as a collection of enrolled factors, survive its edit. */
  lemma {:induction false} EditsKeepOthers(f: Content, w: Wrap, salt: Option<Salt>, title: string)
    ensures Added(f, w, salt).Ok? ==> Others(Added(f, w, salt).value.wraps, w) == Others(f.wraps, w)
    ensures Removed(f, w).Ok? ==> Removed(f, w).value.wraps == Others(f.wraps, w)
    ensures w.SecurityKey? && Renamed(f, w.id, title).Ok? ==>
              Others(Renamed(f, w.id, title).value.wraps, w) == Others(f.wraps, w)
  {
    OthersAppend(f.wraps, [w], w);
    var p := Position(f.wraps, w);
    if p < |f.wraps| {
      OthersUpdate(f.wraps, p, w, w);
      if w.SecurityKey? {
        PositionById(f.wraps, w);
        OthersUpdate(f.wraps, p, f.wraps[p].(title := Some(title)), w);
      }
    } else if w.SecurityKey? {
      PositionById(f.wraps, w);
    }
  }

  lemma {:induction false} OthersAppend(a: seq<Wrap>, b: seq<Wrap>, w: Wrap)
    ensures Others(a + b, w) == Others(a, w) + Others(b, w)
    decreases |a|
  {
    if a == [] {
      assert a + b == b;
    } else {
      assert (a + b)[1..] == a[1..] + b;
      OthersAppend(a[1..], b, w);
    }
  }

  lemma OthersUpdate(wraps: seq<Wrap>, p: nat, x: Wrap, w: Wrap)
    requires p < |wraps| && SameFactor(wraps[p], w) && SameFactor(x, w)
    ensures Others(wraps[p := x], w) == Others(wraps, w)
  {
    var a, b := wraps[..p], wraps[p + 1..];
    assert wraps == a + ([wraps[p]] + b) && wraps[p := x] == a + ([x] + b);
    OthersAppend(a, [wraps[p]] + b, w);
    OthersAppend(a, [x] + b, w);
    assert ([wraps[p]] + b)[1..] == b && ([x] + b)[1..] == b;
  }

  lemma {:induction false} PositionById(wraps: seq<Wrap>, w: Wrap)
    requires w.SecurityKey?
    ensures Position(wraps, SecurityKey(w.id, None, "")) == Position(wraps, w)
    decreases |wraps|
  {
    if wraps != [] { PositionById(wraps[1..], w); }
  }

  /**
   Saving the session's own copy whole, instead of editing the file on disk, would lose factors:
   one added by another session since the copy was read is gone.
   */
  lemma StaleCopyLosesFactors() returns (disk: Content, copy: Content, other: Wrap)
    ensures FileOk(disk) && FileOk(copy) && other in disk.wraps
    ensures Added(copy, Password("new"), None).Ok? && other !in Added(copy, Password("new"), None).value.wraps
    ensures Added(disk, Password("new"), None).Ok? && other in Added(disk, Password("new"), None).value.wraps
  {
    other := SecurityKey("k", None, "s");
    copy := Content(None, [Password("old")]);
    disk := Content(Some("s"), [Password("old"), other]);
    assert disk.wraps[1] == other;
    assert Added(disk, Password("new"), None).value.wraps == [Password("new"), other];
    assert [Password("new"), other][1] == other;
  }
}
