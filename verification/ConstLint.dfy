/**
 Two ESLint rules for AM's Rhino, which scopes `const` to the whole function and loses it in loop
 bodies: no name is declared const twice in one function, and no const is declared in a loop.
 A syntax tree is reduced to what the rules look at.
 */
module ConstLint {
  import opened Common

  /** Child indices from the root; what a report points at. */
  type Path = seq<nat>

  /**
   `Const` is a const declaration with the name of each declarator that is a plain identifier;
   `Loop` is any loop, and says whether its first child is its initializer (or for-in/of target).
   */
  datatype Kind = Const(ids: seq<Option<string>>) | Function | Loop(initFirst: bool) | Other

  datatype Node = Node(kind: Kind, parts: seq<Node>)

  /** One const identifier: the declaration it is in, its place there, and its name. */
  datatype Position = Position(path: Path, index: nat, name: string)

  /****** no-dup-const: what it should report ******/

  /** A const identifier with the path of the innermost function (or program) around it. */
  datatype Ident = Ident(scope: Path, pos: Position)

  function Own(ids: seq<Option<string>>, scope: Path, path: Path): seq<Ident> {
    if ids == [] then []
    else
      var n := |ids| - 1;
      Own(ids[..n], scope, path) +
      match ids[n] { case Some(name) => [Ident(scope, Position(path, n, name))] case None => [] }
  }

  /** Every const identifier under a node, in the order of the text. */
  function Declared(node: Node, scope: Path, path: Path): seq<Ident>
    decreases node, |node.parts| + 1
  {
    if node.kind.Const? then Own(node.kind.ids, scope, path) + DeclaredIn(node, 0, scope, path)
    else DeclaredIn(node, 0, if node.kind.Function? then path else scope, path)
  }

  function DeclaredIn(node: Node, k: nat, scope: Path, path: Path): seq<Ident>
    requires k <= |node.parts|
    decreases node, |node.parts| - k
  {
    if k == |node.parts| then []
    else Declared(node.parts[k], scope, path + [k]) + DeclaredIn(node, k + 1, scope, path)
  }

  predicate AlreadyDeclared(log: seq<Ident>, x: Ident) {
    exists j | 0 <= j < |log| :: log[j].scope == x.scope && log[j].pos.name == x.pos.name
  }

  /** The identifiers whose name an earlier one of the same innermost function has. */
  function Repeated(log: seq<Ident>): seq<Position>
    decreases |log|
  {
    if log == [] then []
    else
      var n := |log| - 1;
      Repeated(log[..n]) + if AlreadyDeclared(log[..n], log[n]) then [log[n].pos] else []
  }

  function Names(log: seq<Ident>, scope: Path): set<string> {
    set x | x in log && x.scope == scope :: x.pos.name
  }

  /****** the visitor ******/

  class DupConst {
    var stack: seq<set<string>>
    var reports: seq<Position>

    constructor ()
      ensures stack == [] && reports == []
    {
      stack, reports := [], [];
    }

    method Push()
      modifies `stack
      ensures stack == old(stack) + [{}]
    {
      stack := stack + [{}];
    }

    method Pop()
      requires stack != []
      modifies `stack
      ensures stack == old(stack)[..|old(stack)| - 1]
    {
      stack := stack[..|stack| - 1];
    }

    /** One declarator with a plain name. */
    method Name(pos: Position, ghost scope: Path, ghost log: seq<Ident>)
      requires Top(scope, log)
      modifies this
      ensures Below(old(stack)) && Top(scope, log + [Ident(scope, pos)])
    {
      var top := |stack| - 1;
      RepeatedGrows(log, Ident(scope, pos));
      NamesGrow(log, Ident(scope, pos), scope);
      if pos.name in stack[top] {
        reports := reports + [pos];
      } else {
        stack := stack[top := stack[top] + {pos.name}];
      }
    }

    /** The handler of a const declaration. */
    method Declaration(ids: seq<Option<string>>, path: Path, ghost scope: Path, ghost log: seq<Ident>)
      requires stack != [] ==> Top(scope, log)
      modifies this
      ensures old(stack) == [] ==> stack == [] && reports == old(reports)
      ensures old(stack) != [] ==> Below(old(stack)) && Top(scope, log + Own(ids, scope, path))
    {
      if |stack| == 0 {
        return;
      }
      var k := 0;
      ghost var seen := log;
      while k < |ids|
        invariant 0 <= k <= |ids| && seen == log + Own(ids[..k], scope, path)
        invariant Below(old(stack)) && Top(scope, seen)
      {
        OwnGrows(log, ids, k, scope, path);
        if ids[k].Some? {
          var pos := Position(path, k, ids[k].value);
          Name(pos, scope, seen);
          seen := seen + [Ident(scope, pos)];
        }
        k := k + 1;
      }
      assert ids[..|ids|] == ids;
    }

    /** The innermost set holds the names its function declared so far, and the reports are right so far. */
    ghost predicate Top(scope: Path, log: seq<Ident>)
      reads this
    {
      stack != [] && stack[|stack| - 1] == Names(log, scope) && reports == Repeated(log)
    }

    /** Only the innermost set differs. */
    ghost predicate Below(before: seq<set<string>>)
      reads this
    {
      |stack| == |before| > 0 && stack[..|stack| - 1] == before[..|stack| - 1]
    }

    /** The traversal: enter, children in order, exit. */
    method Visit(node: Node, path: Path, ghost scope: Path, ghost log: seq<Ident>)
      requires Top(scope, log)
      requires |scope| < |path| && Unvisited(log, path)
      modifies this
      ensures Below(old(stack)) && Top(scope, log + Declared(node, scope, path))
      decreases node, |node.parts| + 1
    {
      match node.kind {
        case Function =>
          Push();
          UnvisitedHasNoNames(log, path);
          VisitParts(node, 0, path, path, log);
          NamesOutside(log, DeclaredIn(node, 0, path, path), scope, path, node);
          Pop();
          DropLast(old(stack), {});
        case Const(ids) =>
          Declaration(ids, path, scope, log);
          OwnIsUnder(ids, scope, path);
          VisitParts(node, 0, path, scope, log + Own(ids, scope, path));
          Assoc(log, Own(ids, scope, path), DeclaredIn(node, 0, scope, path));
        case _ =>
          VisitParts(node, 0, path, scope, log);
      }
    }

    method VisitParts(node: Node, k: nat, path: Path, ghost scope: Path, ghost log: seq<Ident>)
      requires k <= |node.parts| && Top(scope, log)
      requires |scope| <= |path| && forall i | k <= i < |node.parts| :: Unvisited(log, path + [i])
      modifies this
      ensures Below(old(stack)) && Top(scope, log + DeclaredIn(node, k, scope, path))
      decreases node, |node.parts| - k
    {
      if k == |node.parts| {
        assert log + [] == log;
        return;
      }
      Visit(node.parts[k], path + [k], scope, log);
      ghost var here := Declared(node.parts[k], scope, path + [k]);
      DeclaredIsUnder(node.parts[k], scope, path + [k]);
      forall i | k < i < |node.parts| ensures Unvisited(log + here, path + [i]) {
        SiblingsUnvisited(log, here, scope, path, k, i);
      }
      VisitParts(node, k + 1, path, scope, log + here);
      Assoc(log, here, DeclaredIn(node, k + 1, scope, path));
    }

    /** A whole program, whose handlers push and pop one set around it. */
    method Check(program: Node)
      requires stack == [] && reports == []
      modifies this
      ensures stack == []
      ensures reports == Repeated(DeclaredIn(program, 0, [], []))
    {
      Push();
      VisitParts(program, 0, [], [], []);
      assert [] + DeclaredIn(program, 0, [], []) == DeclaredIn(program, 0, [], []);
      Pop();
    }
  }

  lemma Assoc<T>(a: seq<T>, b: seq<T>, c: seq<T>)
    ensures (a + b) + c == a + (b + c)
  {
  }

  lemma DropLast<T>(s: seq<T>, x: T)
    ensures (s + [x])[..|s|] == s
  {
  }

  lemma OwnGrows(log: seq<Ident>, ids: seq<Option<string>>, k: nat, scope: Path, path: Path)
    requires k < |ids|
    ensures log + Own(ids[..k + 1], scope, path) ==
            log + Own(ids[..k], scope, path) +
            if ids[k].Some? then [Ident(scope, Position(path, k, ids[k].value))] else []
  {
    assert ids[..k + 1][..k] == ids[..k];
  }

  lemma RepeatedGrows(log: seq<Ident>, x: Ident)
    ensures AlreadyDeclared(log, x) <==> x.pos.name in Names(log, x.scope)
    ensures Repeated(log + [x]) == Repeated(log) + if AlreadyDeclared(log, x) then [x.pos] else []
  {
    assert (log + [x])[..|log|] == log;
    if AlreadyDeclared(log, x) {
      var j :| 0 <= j < |log| && log[j].scope == x.scope && log[j].pos.name == x.pos.name;
      assert log[j] in log;
    }
  }

  lemma NamesGrow(log: seq<Ident>, x: Ident, scope: Path)
    ensures Names(log + [x], scope) == Names(log, scope) + if x.scope == scope then {x.pos.name} else {}
  {
  }

  /** No identifier seen belongs to a function at or under a path. */
  ghost predicate Unvisited(log: seq<Ident>, path: Path) {
    forall x | x in log :: !(path <= x.scope)
  }

  /** Identifiers found under a path belong to the function around it or to one at or under it. */
  ghost predicate Under(log: seq<Ident>, scope: Path, path: Path) {
    forall x | x in log :: x.scope == scope || path <= x.scope
  }

  lemma UnvisitedHasNoNames(log: seq<Ident>, path: Path)
    requires Unvisited(log, path)
    ensures Names(log, path) == {}
    ensures forall i: nat :: Unvisited(log, path + [i])
  {
    forall i: nat, x | x in log ensures !(path + [i] <= x.scope) {
      PrefixOfExtended(path, i, x.scope);
    }
  }

  lemma {:induction false} OwnIsUnder(ids: seq<Option<string>>, scope: Path, path: Path)
    ensures forall x | x in Own(ids, scope, path) :: x.scope == scope
  {
    if ids != [] { OwnIsUnder(ids[..|ids| - 1], scope, path); }
  }

  lemma {:induction false} DeclaredIsUnder(node: Node, scope: Path, path: Path)
    ensures Under(Declared(node, scope, path), scope, path)
    decreases node, |node.parts| + 1
  {
    if node.kind.Const? { OwnIsUnder(node.kind.ids, scope, path); }
    PartsAreUnder(node, 0, if node.kind.Function? then path else scope, path);
  }

  lemma {:induction false} PartsAreUnder(node: Node, k: nat, scope: Path, path: Path)
    requires k <= |node.parts|
    ensures Under(DeclaredIn(node, k, scope, path), scope, path)
    decreases node, |node.parts| - k
  {
    if k < |node.parts| {
      DeclaredIsUnder(node.parts[k], scope, path + [k]);
      PartsAreUnder(node, k + 1, scope, path);
      forall x | x in Declared(node.parts[k], scope, path + [k]) ensures x.scope == scope || path <= x.scope {
        PrefixOfExtended(path, k, x.scope);
      }
    }
  }

  lemma PrefixOfExtended(path: Path, k: nat, s: Path)
    ensures path + [k] <= s ==> path <= s
  {
    if path + [k] <= s { assert path == (path + [k])[..|path|] == s[..|path|]; }
  }

  lemma BranchesDiffer(path: Path, i: nat, k: nat, s: Path)
    ensures path + [i] <= s && path + [k] <= s ==> i == k
  {
    if path + [i] <= s && path + [k] <= s {
      assert s[|path|] == (path + [i])[|path|];
      assert s[|path|] == (path + [k])[|path|];
    }
  }

  lemma SiblingsUnvisited(log: seq<Ident>, here: seq<Ident>, scope: Path, path: Path, k: nat, i: nat)
    requires Unvisited(log, path + [i]) && Under(here, scope, path + [k]) && |scope| <= |path| && i != k
    ensures Unvisited(log + here, path + [i])
  {
    forall x | x in here ensures !(path + [i] <= x.scope) {
      BranchesDiffer(path, i, k, x.scope);
    }
  }

  lemma NamesOutside(log: seq<Ident>, inner: seq<Ident>, scope: Path, path: Path, node: Node)
    requires |scope| < |path| && inner == DeclaredIn(node, 0, path, path)
    ensures Names(log + inner, scope) == Names(log, scope)
  {
    PartsAreUnder(node, 0, path, path);
    forall x | x in inner ensures x.scope != scope { assert path <= x.scope; }
  }

  /****** the tree behind the list: which identifiers, of which function, in which order ******/

  lemma {:induction false} OwnExactly(ids: seq<Option<string>>, scope: Path, path: Path, x: Ident)
    ensures x in Own(ids, scope, path) <==>
            x.scope == scope && x.pos.path == path && x.pos.index < |ids| && ids[x.pos.index] == Some(x.pos.name)
    decreases |ids|
  {
    if ids != [] {
      var n := |ids| - 1;
      OwnExactly(ids[..n], scope, path, x);
    }
  }

  /** The function around the node at `q`, below a node whose function is `scope`. */
  function ScopeAt(node: Node, scope: Path, path: Path, q: Path): Path
    requires IsPath(node, q)
    decreases |q|
  {
    if q == [] then scope
    else ScopeAt(node.parts[q[0]], if node.kind.Function? then path else scope, path + [q[0]], q[1..])
  }

  predicate NamesAt(node: Node, q: Path, pos: Position) {
    IsPath(node, q) && At(node, q).kind.Const? && pos.index < |At(node, q).kind.ids|
    && At(node, q).kind.ids[pos.index] == Some(pos.name)
  }

  lemma {:induction false} DeclaredStays(node: Node, scope: Path, path: Path, x: Ident)
    requires x in Declared(node, scope, path)
    ensures path <= x.pos.path
    decreases node, |node.parts| + 1
  {
    if node.kind.Const? { OwnExactly(node.kind.ids, scope, path, x); }
    var inner := if node.kind.Function? then path else scope;
    if x in DeclaredIn(node, 0, inner, path) { DeclaredInStays(node, 0, inner, path, x); }
  }

  lemma {:induction false} DeclaredInStays(node: Node, k: nat, scope: Path, path: Path, x: Ident)
    requires k <= |node.parts| && x in DeclaredIn(node, k, scope, path)
    ensures |path| < |x.pos.path| && path <= x.pos.path && k <= x.pos.path[|path|] < |node.parts|
    decreases node, |node.parts| - k
  {
    if x in Declared(node.parts[k], scope, path + [k]) {
      DeclaredStays(node.parts[k], scope, path + [k], x);
      PrefixOfExtended(path, k, x.pos.path);
      assert x.pos.path[|path|] == (path + [k])[|path|];
    } else {
      DeclaredInStays(node, k + 1, scope, path, x);
    }
  }

  lemma {:induction false} DeclaredAt(node: Node, scope: Path, path: Path, q: Path, x: Ident)
    requires x.pos.path == path + q
    ensures x in Declared(node, scope, path) <==> NamesAt(node, q, x.pos) && x.scope == ScopeAt(node, scope, path, q)
    decreases node, |node.parts| + 1
  {
    var inner := if node.kind.Function? then path else scope;
    if node.kind.Const? { OwnExactly(node.kind.ids, scope, path, x); }
    if q == [] {
      assert x.pos.path == path;
      if x in DeclaredIn(node, 0, inner, path) { DeclaredInStays(node, 0, inner, path, x); }
    } else {
      assert x.pos.path != path;
      DeclaredInAt(node, 0, inner, path, q, x);
    }
  }

  lemma {:induction false} DeclaredInAt(node: Node, k: nat, scope: Path, path: Path, q: Path, x: Ident)
    requires k <= |node.parts| && q != [] && x.pos.path == path + q
    ensures x in DeclaredIn(node, k, scope, path) <==>
            k <= q[0] && NamesAt(node, q, x.pos) && x.scope == ScopeAt(node.parts[q[0]], scope, path + [q[0]], q[1..])
    decreases node, |node.parts| - k
  {
    if k < |node.parts| {
      var child := node.parts[k];
      DeclaredInAt(node, k + 1, scope, path, q, x);
      ExtendsAt(path, k, q);
      if q[0] == k {
        assert path + q == path + [k] + q[1..];
        DeclaredAt(child, scope, path + [k], q[1..], x);
      } else if x in Declared(child, scope, path + [k]) {
        DeclaredStays(child, scope, path + [k], x);
      }
    }
  }

  /** `s` is the innermost function above the node at `q`, or the program if none is. */
  ghost predicate InnermostFunction(program: Node, q: Path, s: Path)
    requires IsPath(program, q)
  {
    && |s| < |q| && s == q[..|s|]
    && (s == [] || (IsPath(program, s) && At(program, s).kind.Function?))
    && forall n | |s| < n < |q| :: IsPath(program, q[..n]) && !At(program, q[..n]).kind.Function?
  }

  lemma {:induction false} PrefixIsPath(node: Node, q: Path, n: nat)
    requires IsPath(node, q) && n <= |q|
    ensures IsPath(node, q[..n])
    ensures n > 0 ==>
              IsPath(node.parts[q[0]], q[1..][..n - 1]) && At(node, q[..n]) == At(node.parts[q[0]], q[1..][..n - 1])
    decreases |q|
  {
    if n > 0 {
      assert q[..n][1..] == q[1..][..n - 1];
      PrefixIsPath(node.parts[q[0]], q[1..], n - 1);
    }
  }

  /** Of the nodes from this one down to above `q`, the function that is last, or the given scope. */
  lemma {:induction false} ScopeMeans(node: Node, scope: Path, path: Path, q: Path) returns (n: nat, found: bool)
    requires IsPath(node, q)
    ensures forall j | 0 <= j <= |q| :: IsPath(node, q[..j])
    ensures found ==> n < |q| && At(node, q[..n]).kind.Function? && ScopeAt(node, scope, path, q) == path + q[..n]
    ensures !found ==> n == 0 && ScopeAt(node, scope, path, q) == scope
    ensures forall j | (if found then n + 1 else 0) <= j < |q| :: !At(node, q[..j]).kind.Function?
    decreases |q|
  {
    forall j | 0 <= j <= |q| ensures IsPath(node, q[..j]) { PrefixIsPath(node, q, j); }
    if q == [] {
      n, found := 0, false;
    } else {
      var inner := if node.kind.Function? then path else scope;
      n, found := ScopeMeans(node.parts[q[0]], inner, path + [q[0]], q[1..]);
      forall j | 0 < j <= |q| ensures At(node, q[..j]) == At(node.parts[q[0]], q[1..][..j - 1]) { PrefixIsPath(node, q, j); }
      if found {
        assert path + [q[0]] + q[1..][..n] == path + q[..n + 1];
        n := n + 1;
      } else if node.kind.Function? {
        assert path + q[..0] == path;
        found := true;
      }
    }
  }

  /**
   What a program's list holds: exactly the plain names of its const declarations, each with the
   innermost function around it in the tree.
   */
  lemma DeclaredExactly(program: Node, x: Ident)
    requires program.kind.Other?
    ensures var q := x.pos.path;
            x in DeclaredIn(program, 0, [], []) <==> q != [] && NamesAt(program, q, x.pos) && InnermostFunction(program, q, x.scope)
  {
    var q := x.pos.path;
    if q == [] {
      if x in DeclaredIn(program, 0, [], []) { DeclaredInStays(program, 0, [], [], x); }
    } else {
      assert [] + q == q;
      DeclaredInAt(program, 0, [], [], q, x);
      if IsPath(program, q) {
        var n, found := ScopeMeans(program, [], [], q);
        assert [] + q[..n] == q[..n];
        OnlyOneInnermost(program, q, q[..n], x.scope);
      }
    }
  }

  lemma OnlyOneInnermost(program: Node, q: Path, s: Path, t: Path)
    requires IsPath(program, q) && InnermostFunction(program, q, s)
    ensures InnermostFunction(program, q, t) <==> s == t
  {
    if |s| < |t| < |q| {
      assert t == q[..|t|] ==> !At(program, t).kind.Function?;
    } else if |t| < |s| {
      assert s == q[..|s|] && At(program, s).kind.Function?;
    }
  }

  /** Nodes in the order their texts begin: a node before those in it, and those by their places. */
  predicate PathBefore(a: Path, b: Path)
    decreases |a|
  {
    b != [] && (a == [] || a[0] < b[0] || (a[0] == b[0] && PathBefore(a[1..], b[1..])))
  }

  predicate PosBefore(a: Position, b: Position) {
    PathBefore(a.path, b.path) || (a.path == b.path && a.index < b.index)
  }

  lemma {:induction false} BelowIsAfter(a: Path, b: Path)
    requires a <= b && a != b
    ensures PathBefore(a, b)
    decreases |a|
  {
    if a != [] { BelowIsAfter(a[1..], b[1..]); }
  }

  lemma {:induction false} BranchesInOrder(path: Path, a: Path, b: Path)
    requires path <= a && path <= b && |path| < |a| && |path| < |b| && a[|path|] < b[|path|]
    ensures PathBefore(a, b)
    decreases |path|
  {
    if path != [] { BranchesInOrder(path[1..], a[1..], b[1..]); }
  }

  ghost predicate InOrder(log: seq<Ident>) {
    forall i, j | 0 <= i < j < |log| :: PosBefore(log[i].pos, log[j].pos)
  }

  lemma OrderOfTwo(a: seq<Ident>, b: seq<Ident>)
    requires InOrder(a) && InOrder(b) && forall x, y | x in a && y in b :: PosBefore(x.pos, y.pos)
    ensures InOrder(a + b)
  {
  }

  lemma {:induction false} OwnInOrder(ids: seq<Option<string>>, scope: Path, path: Path)
    ensures InOrder(Own(ids, scope, path))
    decreases |ids|
  {
    if ids != [] && ids[|ids| - 1].Some? {
      var n := |ids| - 1;
      var own, last := Own(ids[..n], scope, path), [Ident(scope, Position(path, n, ids[n].value))];
      OwnInOrder(ids[..n], scope, path);
      forall x, y | x in own && y in last ensures PosBefore(x.pos, y.pos) { OwnExactly(ids[..n], scope, path, x); }
      OrderOfTwo(own, last);
    } else if ids != [] {
      OwnInOrder(ids[..|ids| - 1], scope, path);
      assert Own(ids, scope, path) == Own(ids[..|ids| - 1], scope, path);
    }
  }

  lemma {:induction false} DeclaredInOrder(node: Node, scope: Path, path: Path)
    ensures InOrder(Declared(node, scope, path))
    decreases node, |node.parts| + 1
  {
    PartsInOrder(node, 0, if node.kind.Function? then path else scope, path);
    if node.kind.Const? {
      var own, more := Own(node.kind.ids, scope, path), DeclaredIn(node, 0, scope, path);
      OwnInOrder(node.kind.ids, scope, path);
      forall x, y | x in own && y in more ensures PosBefore(x.pos, y.pos) {
        OwnExactly(node.kind.ids, scope, path, x);
        DeclaredInStays(node, 0, scope, path, y);
        BelowIsAfter(path, y.pos.path);
      }
      OrderOfTwo(own, more);
    }
  }

  /** The list is in the order of the text, so of two equal names the later one is reported. */
  lemma {:induction false} PartsInOrder(node: Node, k: nat, scope: Path, path: Path)
    requires k <= |node.parts|
    ensures InOrder(DeclaredIn(node, k, scope, path))
    decreases node, |node.parts| - k
  {
    if k < |node.parts| {
      var here, more := Declared(node.parts[k], scope, path + [k]), DeclaredIn(node, k + 1, scope, path);
      DeclaredInOrder(node.parts[k], scope, path + [k]);
      PartsInOrder(node, k + 1, scope, path);
      forall x, y | x in here && y in more ensures PosBefore(x.pos, y.pos) {
        DeclaredStays(node.parts[k], scope, path + [k], x);
        DeclaredInStays(node, k + 1, scope, path, y);
        ChildThenLater(path, k, x.pos.path, y.pos.path);
      }
      OrderOfTwo(here, more);
    }
  }

  lemma ChildThenLater(path: Path, k: nat, a: Path, b: Path)
    requires path + [k] <= a && path <= b && |path| < |b| && k < b[|path|]
    ensures PathBefore(a, b)
  {
    PrefixOfExtended(path, k, a);
    assert a[|path|] == (path + [k])[|path|];
    BranchesInOrder(path, a, b);
  }

  lemma {:induction false} PathBeforeIsStrict(a: Path, b: Path)
    ensures !(PathBefore(a, b) && PathBefore(b, a)) && !PathBefore(a, a)
    decreases |a|
  {
    if a != [] && b != [] { PathBeforeIsStrict(a[1..], b[1..]); } else if a != [] { PathBeforeIsStrict(a[1..], []); }
  }

  predicate Again(log: seq<Ident>, pos: Position, j: int, i: int) {
    0 <= j < i < |log| && log[i].pos == pos && log[j].scope == log[i].scope && log[j].pos.name == pos.name
  }

  lemma {:induction false} RepeatedAt(log: seq<Ident>, pos: Position)
    ensures pos in Repeated(log) <==> exists j, i :: Again(log, pos, j, i)
    decreases |log|
  {
    if log != [] {
      var n := |log| - 1;
      RepeatedAt(log[..n], pos);
      if j, i :| Again(log[..n], pos, j, i) {
        assert Again(log, pos, j, i);
      }
      if AlreadyDeclared(log[..n], log[n]) && log[n].pos == pos {
        var j :| 0 <= j < n && log[..n][j].scope == log[n].scope && log[..n][j].pos.name == pos.name;
        assert Again(log, pos, j, n);
      }
      if j, i :| Again(log, pos, j, i) {
        if i < n { assert Again(log[..n], pos, j, i); } else { assert log[..n][j] == log[j]; }
      }
    }
  }

  /** In the tree, the position is a plain const name and `s` the innermost function around it. */
  ghost predicate Declares(program: Node, pos: Position, s: Path) {
    pos.path != [] && NamesAt(program, pos.path, pos) && InnermostFunction(program, pos.path, s)
  }

  /** In a list in the order of the text, the earlier of two identifiers stands first. */
  lemma EarlierStandsFirst(log: seq<Ident>, s: Path, first: Position, pos: Position) returns (j: nat, i: nat)
    requires InOrder(log) && Ident(s, first) in log && Ident(s, pos) in log && PosBefore(first, pos)
    ensures j < i < |log| && log[j] == Ident(s, first) && log[i] == Ident(s, pos)
  {
    j :| 0 <= j < |log| && log[j] == Ident(s, first);
    i :| 0 <= i < |log| && log[i] == Ident(s, pos);
    PathBeforeIsStrict(first.path, pos.path);
    PathBeforeIsStrict(pos.path, pos.path);
  }

  /** Reported are exactly the const names declared earlier in the text of the same innermost function. */
  lemma ReportedExactly(program: Node, pos: Position)
    requires program.kind.Other?
    ensures pos in Repeated(DeclaredIn(program, 0, [], [])) <==> exists s: Path, first: Position :: Repeats(program, pos, s, first)
  {
    if pos in Repeated(DeclaredIn(program, 0, [], [])) {
      var s, first := ReportedRepeats(program, pos);
    }
    if s: Path, first: Position :| Repeats(program, pos, s, first) {
      RepeatsIsReported(program, pos, s, first);
    }
  }

  ghost predicate Repeats(program: Node, pos: Position, s: Path, first: Position) {
    Declares(program, first, s) && Declares(program, pos, s) && first.name == pos.name && PosBefore(first, pos)
  }

  lemma ReportedRepeats(program: Node, pos: Position) returns (s: Path, first: Position)
    requires program.kind.Other? && pos in Repeated(DeclaredIn(program, 0, [], []))
    ensures Repeats(program, pos, s, first)
  {
    var log := DeclaredIn(program, 0, [], []);
    RepeatedAt(log, pos);
    PartsInOrder(program, 0, [], []);
    var j, i :| Again(log, pos, j, i);
    s, first := log[i].scope, log[j].pos;
    assert log[i] in log && log[j] in log;
    DeclaredExactly(program, log[i]);
    DeclaredExactly(program, log[j]);
  }

  lemma RepeatsIsReported(program: Node, pos: Position, s: Path, first: Position)
    requires program.kind.Other? && Repeats(program, pos, s, first)
    ensures pos in Repeated(DeclaredIn(program, 0, [], []))
  {
    var log := DeclaredIn(program, 0, [], []);
    RepeatedAt(log, pos);
    PartsInOrder(program, 0, [], []);
    DeclaredExactly(program, Ident(s, first));
    DeclaredExactly(program, Ident(s, pos));
    var j, i := EarlierStandsFirst(log, s, first, pos);
    assert Again(log, pos, j, i);
  }

  /****** per function: declarations less distinct names ******/

  function OnlyIn(log: seq<Ident>, scope: Path): seq<Ident>
    decreases |log|
  {
    if log == [] then []
    else
      var n := |log| - 1;
      OnlyIn(log[..n], scope) + if log[n].scope == scope then [log[n]] else []
  }

  lemma {:induction false} SameNamesAlone(log: seq<Ident>, scope: Path)
    ensures Names(OnlyIn(log, scope), scope) == Names(log, scope)
    decreases |log|
  {
    if log != [] {
      var n := |log| - 1;
      SameNamesAlone(log[..n], scope);
      assert log == log[..n] + [log[n]];
      NamesGrow(log[..n], log[n], scope);
      NamesGrow(OnlyIn(log[..n], scope), log[n], scope);
    }
  }

  lemma CountGrows(alone: seq<Ident>, x: Ident)
    requires |Repeated(alone)| == |alone| - |Names(alone, x.scope)|
    ensures |Repeated(alone + [x])| == |alone + [x]| - |Names(alone + [x], x.scope)|
  {
    RepeatedGrows(alone, x);
    NamesGrow(alone, x, x.scope);
    if x.pos.name in Names(alone, x.scope) {
      assert Names(alone, x.scope) + {x.pos.name} == Names(alone, x.scope);
    }
  }

  lemma {:induction false} CountAlone(log: seq<Ident>, scope: Path)
    ensures |Repeated(OnlyIn(log, scope))| == |OnlyIn(log, scope)| - |Names(OnlyIn(log, scope), scope)|
    decreases |log|
  {
    if log != [] {
      var n := |log| - 1;
      CountAlone(log[..n], scope);
      if log[n].scope == scope {
        CountGrows(OnlyIn(log[..n], scope), log[n]);
      } else {
        assert OnlyIn(log[..n], scope) + [] == OnlyIn(log[..n], scope);
      }
    }
  }

  /** In each function as many are reported as it has declarations beyond its distinct names. */
  lemma ReportsPerFunction(log: seq<Ident>, scope: Path)
    ensures |Repeated(OnlyIn(log, scope))| == |OnlyIn(log, scope)| - |Names(log, scope)|
  {
    CountAlone(log, scope);
    SameNamesAlone(log, scope);
  }

  /** A declaration is reported, in the whole program, exactly when its function alone would report it. */
  lemma {:induction false} FunctionsAreIndependent(log: seq<Ident>, x: Ident)
    ensures AlreadyDeclared(log, x) <==> AlreadyDeclared(OnlyIn(log, x.scope), x)
  {
    SameNamesAlone(log, x.scope);
    RepeatedGrows(log, x);
    RepeatedGrows(OnlyIn(log, x.scope), x);
  }

  /****** no-const-in-loop-body ******/

  /** Going down the tree: a loop sets the flag, a function clears it. */
  function FlagBelow(flag: bool, kind: Kind): bool {
    match kind
    case Function => false
    case Loop(_) => true
    case _ => flag
  }

  function FlagAfter(flag: bool, ancestors: seq<Kind>): bool
    decreases |ancestors|
  {
    if ancestors == [] then flag else FlagAfter(FlagBelow(flag, ancestors[0]), ancestors[1..])
  }

  lemma {:induction false} FlagOfLast(flag: bool, ancestors: seq<Kind>, kind: Kind)
    ensures FlagAfter(flag, ancestors + [kind]) == FlagBelow(FlagAfter(flag, ancestors), kind)
    decreases |ancestors|
  {
    if ancestors == [] {
      assert ([] + [kind])[1..] == [];
    } else {
      assert (ancestors + [kind])[1..] == ancestors[1..] + [kind];
      FlagOfLast(FlagBelow(flag, ancestors[0]), ancestors[1..], kind);
    }
  }

  /** Some loop is around, and no function is between it and the node. */
  ghost predicate LoopAround(ancestors: seq<Kind>) {
    exists i :: NearestFrom(ancestors, i)
  }

  predicate NearestFrom(ancestors: seq<Kind>, i: int) {
    0 <= i < |ancestors| && ancestors[i].Loop? && forall j | i < j < |ancestors| :: !ancestors[j].Function?
  }

  lemma LoopAroundOfLast(outer: seq<Kind>, kind: Kind)
    ensures LoopAround(outer + [kind]) <==> FlagBelow(LoopAround(outer), kind)
  {
    var all := outer + [kind];
    assert all[..|outer|] == outer;
    assert all[|outer|] == kind;
    if kind.Loop? {
      assert NearestFrom(all, |outer|);
    }
    if i :| NearestFrom(all, i) && i < |outer| {
      assert NearestFrom(outer, i);
    }
    if LoopAround(outer) && !kind.Function? {
      var i :| NearestFrom(outer, i);
      assert NearestFrom(all, i);
    }
  }

  lemma {:induction false} FlagMeansNearestLoop(ancestors: seq<Kind>)
    ensures FlagAfter(false, ancestors) <==> LoopAround(ancestors)
    decreases |ancestors|
  {
    if ancestors != [] {
      var n := |ancestors| - 1;
      assert ancestors == ancestors[..n] + [ancestors[n]];
      FlagOfLast(false, ancestors[..n], ancestors[n]);
      FlagMeansNearestLoop(ancestors[..n]);
      LoopAroundOfLast(ancestors[..n], ancestors[n]);
    }
  }

  /** The climb from a node's parent, given the nodes around it from the program inwards. */
  method IsInsideLoopBody(ancestors: seq<Kind>) returns (inside: bool)
    ensures inside == FlagAfter(false, ancestors)
  {
    var i := |ancestors|;
    assert ancestors[..i] == ancestors;
    while i > 0
      invariant 0 <= i <= |ancestors|
      invariant FlagAfter(false, ancestors) == FlagAfter(false, ancestors[..i])
    {
      i := i - 1;
      assert ancestors[..i + 1] == ancestors[..i] + [ancestors[i]];
      FlagOfLast(false, ancestors[..i], ancestors[i]);
      if ancestors[i].Function? {
        return false;
      }
      if ancestors[i].Loop? {
        return true;
      }
    }
    inside := false;
  }

  /** Whether a loop's child in this place is its initializer. */
  predicate InitialIn(parent: Kind, index: nat) {
    parent.Loop? && parent.initFirst && index == 0
  }

  /** What the rule should report, computed on the way down. */
  function Flagged(node: Node, path: Path, flag: bool, initial: bool): seq<Path>
    decreases node, |node.parts| + 1
  {
    (if node.kind.Const? && flag && !initial then [path] else []) + FlaggedIn(node, 0, path, FlagBelow(flag, node.kind))
  }

  function FlaggedIn(node: Node, k: nat, path: Path, flag: bool): seq<Path>
    requires k <= |node.parts|
    decreases node, |node.parts| - k
  {
    if k == |node.parts| then []
    else Flagged(node.parts[k], path + [k], flag, InitialIn(node.kind, k)) + FlaggedIn(node, k + 1, path, flag)
  }

  class ConstInLoop {
    var reports: seq<Path>

    constructor ()
      ensures reports == []
    {
      reports := [];
    }

    method Declaration(path: Path, ancestors: seq<Kind>, initial: bool)
      modifies this
      ensures reports == old(reports) + if FlagAfter(false, ancestors) && !initial then [path] else []
    {
      if initial {
        return;
      }
      var inside := IsInsideLoopBody(ancestors);
      if !inside {
        return;
      }
      reports := reports + [path];
    }

    method Visit(node: Node, path: Path, ancestors: seq<Kind>, initial: bool)
      modifies this
      ensures reports == old(reports) + Flagged(node, path, FlagAfter(false, ancestors), initial)
      decreases node, |node.parts| + 1
    {
      if node.kind.Const? {
        Declaration(path, ancestors, initial);
      }
      FlagOfLast(false, ancestors, node.kind);
      VisitParts(node, 0, path, ancestors + [node.kind]);
    }

    method VisitParts(node: Node, k: nat, path: Path, ancestors: seq<Kind>)
      requires k <= |node.parts|
      modifies this
      ensures reports == old(reports) + FlaggedIn(node, k, path, FlagAfter(false, ancestors))
      decreases node, |node.parts| - k
    {
      if k < |node.parts| {
        Visit(node.parts[k], path + [k], ancestors, InitialIn(node.kind, k));
        VisitParts(node, k + 1, path, ancestors);
      }
    }
  }

  /****** which nodes those are ******/

  predicate IsPath(node: Node, q: Path)
    decreases |q|
  {
    q == [] || (q[0] < |node.parts| && IsPath(node.parts[q[0]], q[1..]))
  }

  function At(node: Node, q: Path): Node
    requires IsPath(node, q)
    decreases |q|
  {
    if q == [] then node else At(node.parts[q[0]], q[1..])
  }

  /** The kinds of the nodes around the one at `q`, from the root inwards. */
  function Around(node: Node, q: Path): seq<Kind>
    requires IsPath(node, q)
    decreases |q|
  {
    if q == [] then [] else [node.kind] + Around(node.parts[q[0]], q[1..])
  }

  /** Whether the node at `q` is a loop's initializer; `initial` says so of the root. */
  predicate Initial(node: Node, q: Path, initial: bool)
    requires IsPath(node, q)
    decreases |q|
  {
    if q == [] then initial else Initial(node.parts[q[0]], q[1..], InitialIn(node.kind, q[0]))
  }

  /** That is: its parent is a loop that has one, and it is the first child. */
  lemma {:induction false} InitialMeans(node: Node, q: Path)
    requires IsPath(node, q) && q != []
    ensures var n := |q| - 1;
            IsPath(node, q[..n]) && (Initial(node, q, false) <==> At(node, q[..n]).kind == Loop(true) && q[n] == 0)
    decreases |q|
  {
    var n := |q| - 1;
    PrefixIsPath(node, q, n);
    if n > 0 { InitialMeans(node.parts[q[0]], q[1..]); }
  }

  lemma {:induction false} FlaggedInExtends(node: Node, k: nat, path: Path, flag: bool, x: Path)
    requires k <= |node.parts| && x in FlaggedIn(node, k, path, flag)
    ensures |path| < |x| && path <= x && k <= x[|path|] < |node.parts|
    decreases node, |node.parts| - k
  {
    if x in Flagged(node.parts[k], path + [k], flag, InitialIn(node.kind, k)) {
      FlaggedExtends(node.parts[k], path + [k], flag, InitialIn(node.kind, k), x);
      PrefixOfExtended(path, k, x);
      assert x[|path|] == (path + [k])[|path|];
    } else {
      FlaggedInExtends(node, k + 1, path, flag, x);
    }
  }

  lemma {:induction false} FlaggedExtends(node: Node, path: Path, flag: bool, initial: bool, x: Path)
    requires x in Flagged(node, path, flag, initial)
    ensures path <= x
    decreases node, |node.parts| + 1
  {
    if x != path { FlaggedInExtends(node, 0, path, FlagBelow(flag, node.kind), x); }
  }

  /**
   Exactly the const declarations that are not a loop's initializer and have a loop around them with
   no function between.
   */
  lemma {:induction false} FlaggedExactly(node: Node, path: Path, flag: bool, initial: bool, q: Path)
    ensures path + q in Flagged(node, path, flag, initial) <==>
            IsPath(node, q) && At(node, q).kind.Const? && FlagAfter(flag, Around(node, q)) && !Initial(node, q, initial)
    decreases node, |node.parts| + 1
  {
    var below := FlagBelow(flag, node.kind);
    if q == [] {
      assert path + q == path;
      if path in FlaggedIn(node, 0, path, below) { FlaggedInExtends(node, 0, path, below, path); }
    } else {
      assert path + q != path;
      FlaggedInExactly(node, 0, path, below, q);
      if IsPath(node, q) {
        assert Around(node, q)[1..] == Around(node.parts[q[0]], q[1..]);
      }
    }
  }

  lemma ExtendsAt(path: Path, k: nat, q: Path)
    requires q != []
    ensures path + [k] <= path + q ==> q[0] == k
  {
    if path + [k] <= path + q { assert (path + q)[|path|] == (path + [k])[|path|]; }
  }

  lemma {:induction false} FlaggedInExactly(node: Node, k: nat, path: Path, flag: bool, q: Path)
    requires k <= |node.parts| && q != []
    ensures path + q in FlaggedIn(node, k, path, flag) <==>
            k <= q[0] && IsPath(node, q) &&
            var child, rest := node.parts[q[0]], q[1..];
            At(child, rest).kind.Const? && FlagAfter(flag, Around(child, rest)) &&
            !Initial(child, rest, InitialIn(node.kind, q[0]))
    decreases node, |node.parts| - k
  {
    if k < |node.parts| {
      var child, initial := node.parts[k], InitialIn(node.kind, k);
      FlaggedInExactly(node, k + 1, path, flag, q);
      ExtendsAt(path, k, q);
      if q[0] == k {
        assert path + q == path + [k] + q[1..];
        FlaggedExactly(child, path + [k], flag, initial, q[1..]);
      } else if path + q in Flagged(child, path + [k], flag, initial) {
        FlaggedExtends(child, path + [k], flag, initial, path + q);
      }
    }
  }

  ghost predicate PathsInOrder(paths: seq<Path>) {
    forall i, j | 0 <= i < j < |paths| :: PathBefore(paths[i], paths[j])
  }

  lemma PathsOfTwo(a: seq<Path>, b: seq<Path>)
    requires PathsInOrder(a) && PathsInOrder(b) && forall x, y | x in a && y in b :: PathBefore(x, y)
    ensures PathsInOrder(a + b)
  {
  }

  /** The reports are in the order of the text, each once. */
  lemma {:induction false} FlaggedInOrder(node: Node, path: Path, flag: bool, initial: bool)
    ensures PathsInOrder(Flagged(node, path, flag, initial))
    decreases node, |node.parts| + 1
  {
    var below := FlagBelow(flag, node.kind);
    var own, more := if node.kind.Const? && flag && !initial then [path] else [], FlaggedIn(node, 0, path, below);
    FlaggedPartsInOrder(node, 0, path, below);
    forall x, y | x in own && y in more ensures PathBefore(x, y) {
      FlaggedInExtends(node, 0, path, below, y);
      BelowIsAfter(path, y);
    }
    PathsOfTwo(own, more);
  }

  lemma {:induction false} FlaggedPartsInOrder(node: Node, k: nat, path: Path, flag: bool)
    requires k <= |node.parts|
    ensures PathsInOrder(FlaggedIn(node, k, path, flag))
    decreases node, |node.parts| - k
  {
    if k < |node.parts| {
      var initial := InitialIn(node.kind, k);
      var here, more := Flagged(node.parts[k], path + [k], flag, initial), FlaggedIn(node, k + 1, path, flag);
      FlaggedInOrder(node.parts[k], path + [k], flag, initial);
      FlaggedPartsInOrder(node, k + 1, path, flag);
      forall x, y | x in here && y in more ensures PathBefore(x, y) {
        FlaggedExtends(node.parts[k], path + [k], flag, initial, x);
        FlaggedInExtends(node, k + 1, path, flag, y);
        ChildThenLater(path, k, x, y);
      }
      PathsOfTwo(here, more);
    }
  }

  /** The rule over a program. */
  method CheckLoops(program: Node) returns (reports: seq<Path>)
    requires program.kind.Other?
    ensures reports == Flagged(program, [], false, false)
    ensures forall q :: q in reports <==>
              IsPath(program, q) && At(program, q).kind.Const? && FlagAfter(false, Around(program, q)) &&
              !Initial(program, q, false)
  {
    var visitor := new ConstInLoop();
    visitor.Visit(program, [], [], false);
    reports := visitor.reports;
    forall q: Path
      ensures q in reports <==>
              IsPath(program, q) && At(program, q).kind.Const? && FlagAfter(false, Around(program, q)) &&
              !Initial(program, q, false)
    {
      assert [] + q == q;
      FlaggedExactly(program, [], false, false, q);
    }
  }
}
