/**
 The structural comparison shown by `managed diff` and `journey diff`: where two JSON values
 differ, by JSON pointer (RFC 6901).
 */
module JsonDiff {
  import opened Common
  import opened Text
  import opened Json

  /** One difference, addressed by reference tokens. */
  datatype Edit = Edit(path: seq<string>, left: Option<Value>, right: Option<Value>)

  /** One difference as reported, addressed by a pointer string. */
  datatype Change = Change(path: string, left: Option<Value>, right: Option<Value>)

  function Under(token: string, es: seq<Edit>): (r: seq<Edit>)
    ensures |r| == |es|
    ensures forall i | 0 <= i < |r| :: r[i] == es[i].(path := [token] + es[i].path)
  {
    seq(|es|, i requires 0 <= i < |es| => es[i].(path := [token] + es[i].path))
  }

  predicate SameContainer(l: Value, r: Value) {
    (l.Object? && r.Object?) || (l.Array? && r.Array?)
  }

  function Indices(from: nat, to: nat): (r: seq<string>)
    requires from <= to
    ensures |r| == to - from && forall i | 0 <= i < |r| :: r[i] == Dec(from + i)
  {
    seq(to - from, i requires 0 <= i < to - from => Dec(from + i))
  }

  /** The tokens at which two containers of a kind are compared, in the order they are. */
  ghost function Tokens(l: Value, r: Value): seq<string>
    requires SameContainer(l, r)
  {
    if l.Object? then SortedKeys(l.fields.Keys + r.fields.Keys)
    else Indices(0, Max(|l.items|, |r.items|))
  }

  ghost function Diff(l: Value, r: Value): seq<Edit>
    decreases l, 2
  {
    if l == r then []
    else if SameContainer(l, r) then DiffAt(l, r, Tokens(l, r))
    else [Edit([], Some(l), Some(r))]
  }

  ghost function DiffOne(l: Value, r: Value, token: string): seq<Edit>
    decreases l, 0
  {
    var x, y := Child(l, token), Child(r, token);
    if x.Some? && y.Some? then Under(token, Diff(x.value, y.value))
    else [Edit([token], x, y)]
  }

  ghost function DiffAt(l: Value, r: Value, tokens: seq<string>): seq<Edit>
    decreases l, 1, |tokens|
  {
    if tokens == [] then [] else DiffOne(l, r, tokens[0]) + DiffAt(l, r, tokens[1..])
  }

  lemma DiffAtStep(l: Value, r: Value, tokens: seq<string>, n: nat)
    requires n < |tokens|
    ensures DiffAt(l, r, tokens[n..]) == DiffOne(l, r, tokens[n]) + DiffAt(l, r, tokens[n + 1..])
  {
    assert tokens[n..][0] == tokens[n] && tokens[n..][1..] == tokens[n + 1..];
  }

  /****** containers and their members ******/

  lemma IndexRoundTrip(i: nat)
    ensures ParseIndex(Dec(i)) == Some(i)
  {
    ValueOfDec(i);
  }

  lemma TokensMeetAMember(l: Value, r: Value, token: string)
    requires SameContainer(l, r) && token in Tokens(l, r)
    ensures Child(l, token).Some? || Child(r, token).Some?
  {
    if l.Object? {
      assert token in Elements(Tokens(l, r));
    } else {
      var i :| 0 <= i < |Tokens(l, r)| && Tokens(l, r)[i] == token;
      IndexRoundTrip(i);
    }
  }

  lemma TokensDistinct(l: Value, r: Value, i: nat, j: nat)
    requires SameContainer(l, r) && i < j < |Tokens(l, r)|
    ensures Tokens(l, r)[i] != Tokens(l, r)[j]
  {
    if l.Object? {
      LessTotal(Tokens(l, r)[i], Tokens(l, r)[i]);
    } else {
      IndexRoundTrip(i);
      IndexRoundTrip(j);
    }
  }

  lemma SameItem(l: Value, r: Value, i: nat)
    requires l.Array? && r.Array? && i < Max(|l.items|, |r.items|)
    requires forall t | t in Tokens(l, r) :: Child(l, t) == Child(r, t)
    ensures i < |l.items| && i < |r.items| && l.items[i] == r.items[i]
  {
    assert Tokens(l, r)[i] == Dec(i);
    IndexRoundTrip(i);
    assert Child(l, Dec(i)) == Child(r, Dec(i));
  }

  lemma SameItems(l: Value, r: Value)
    requires l.Array? && r.Array?
    requires forall t | t in Tokens(l, r) :: Child(l, t) == Child(r, t)
    ensures l == r
  {
    var n := Max(|l.items|, |r.items|);
    forall i | 0 <= i < n ensures i < |l.items| && i < |r.items| && l.items[i] == r.items[i] { SameItem(l, r, i); }
    if n > 0 { SameItem(l, r, n - 1); }
    assert l.items == r.items;
  }

  lemma SameMembersSameValue(l: Value, r: Value)
    requires SameContainer(l, r)
    requires forall t | t in Tokens(l, r) :: Child(l, t) == Child(r, t)
    ensures l == r
  {
    if l.Object? {
      forall k | k in l.fields.Keys + r.fields.Keys ensures Get(l, k) == Get(r, k) && k in l.fields && k in r.fields {
        assert k in Elements(Tokens(l, r));
        assert Child(l, k) == Child(r, k);
      }
      assert l.fields == r.fields;
    } else {
      SameItems(l, r);
    }
  }

  /****** the list is empty exactly for equal values ******/

  lemma {:induction false} EmptyIffEqual(l: Value, r: Value)
    ensures Diff(l, r) == [] <==> l == r
    decreases l, 2
  {
    if l != r && SameContainer(l, r) && Diff(l, r) == [] {
      EmptyMembers(l, r, Tokens(l, r));
      SameMembersSameValue(l, r);
    }
  }

  lemma {:induction false} EmptyMembers(l: Value, r: Value, tokens: seq<string>)
    requires DiffAt(l, r, tokens) == []
    ensures forall t | t in tokens :: Child(l, t) == Child(r, t)
    decreases l, 1, |tokens|
  {
    if tokens != [] {
      assert DiffOne(l, r, tokens[0]) == [] && DiffAt(l, r, tokens[1..]) == [];
      var x, y := Child(l, tokens[0]), Child(r, tokens[0]);
      if x.Some? && y.Some? {
        EmptyIffEqual(x.value, y.value);
      }
      EmptyMembers(l, r, tokens[1..]);
    }
  }

  /****** swapping the sides swaps the sides, in the same order ******/

  function Swap(es: seq<Edit>): (r: seq<Edit>)
    ensures |r| == |es| && forall i | 0 <= i < |r| :: r[i] == Edit(es[i].path, es[i].right, es[i].left)
  {
    seq(|es|, i requires 0 <= i < |es| => Edit(es[i].path, es[i].right, es[i].left))
  }

  lemma SwapConcat(a: seq<Edit>, b: seq<Edit>)
    ensures Swap(a + b) == Swap(a) + Swap(b)
  {
  }

  lemma DiffOneSwaps(l: Value, r: Value, token: string)
    requires var x, y := Child(l, token), Child(r, token);
             x.Some? && y.Some? ==> Diff(y.value, x.value) == Swap(Diff(x.value, y.value))
    ensures DiffOne(r, l, token) == Swap(DiffOne(l, r, token))
  {
  }

  lemma {:induction false} DiffSwaps(l: Value, r: Value)
    ensures Diff(r, l) == Swap(Diff(l, r))
    decreases l, 2
  {
    if l != r && SameContainer(l, r) {
      assert l.Object? ==> l.fields.Keys + r.fields.Keys == r.fields.Keys + l.fields.Keys;
      assert Tokens(l, r) == Tokens(r, l);
      DiffAtSwaps(l, r, Tokens(l, r));
    }
  }

  lemma {:induction false} DiffAtSwaps(l: Value, r: Value, tokens: seq<string>)
    ensures DiffAt(r, l, tokens) == Swap(DiffAt(l, r, tokens))
    decreases l, 1, |tokens|
  {
    if tokens != [] {
      var x, y := Child(l, tokens[0]), Child(r, tokens[0]);
      if x.Some? && y.Some? {
        DiffSwaps(x.value, y.value);
      }
      DiffOneSwaps(l, r, tokens[0]);
      DiffAtSwaps(l, r, tokens[1..]);
      SwapConcat(DiffOne(l, r, tokens[0]), DiffAt(l, r, tokens[1..]));
    }
  }

  /****** every path resolves, in each value, to exactly the reported side ******/

  ghost predicate Faithful(l: Value, r: Value, e: Edit) {
    && Resolve(l, e.path) == e.left && Resolve(r, e.path) == e.right
    && e.left != e.right
    && (e.path == [] ==> e.left.Some? && e.right.Some?)
  }

  lemma {:induction false} DiffFaithful(l: Value, r: Value)
    ensures forall e | e in Diff(l, r) :: Faithful(l, r, e)
    decreases l, 2
  {
    if l != r && SameContainer(l, r) {
      forall t | t in Tokens(l, r) ensures Child(l, t).Some? || Child(r, t).Some? { TokensMeetAMember(l, r, t); }
      DiffAtFaithful(l, r, Tokens(l, r));
    }
  }

  lemma ResolveOne(v: Value, t: string)
    ensures Resolve(v, [t]) == Child(v, t)
  {
    assert [t][1..] == [];
  }

  lemma {:induction false} DiffAtFaithful(l: Value, r: Value, tokens: seq<string>)
    requires forall t | t in tokens :: Child(l, t).Some? || Child(r, t).Some?
    ensures forall e | e in DiffAt(l, r, tokens) :: Faithful(l, r, e) && e.path != [] && e.path[0] in tokens
    decreases l, 1, |tokens|
  {
    if tokens != [] {
      var t := tokens[0];
      var x, y := Child(l, t), Child(r, t);
      if x.Some? && y.Some? {
        DiffFaithful(x.value, y.value);
        var es := Diff(x.value, y.value);
        forall e | e in Under(t, es) ensures Faithful(l, r, e) && e.path[0] == t {
          var i :| 0 <= i < |es| && Under(t, es)[i] == e;
          assert Faithful(x.value, y.value, es[i]);
          assert e.path[1..] == es[i].path;
        }
      } else {
        ResolveOne(l, t);
        ResolveOne(r, t);
      }
      DiffAtFaithful(l, r, tokens[1..]);
    }
  }

  /****** nothing is left out: the converse ******/

  /** One path is at, above or below the other. */
  predicate Meets(a: seq<string>, b: seq<string>) { a <= b || b <= a }

  lemma {:induction false} DiffOneIn(l: Value, r: Value, tokens: seq<string>, t: string, e: Edit)
    requires t in tokens && e in DiffOne(l, r, t)
    ensures e in DiffAt(l, r, tokens)
    decreases |tokens|
  {
    if tokens[0] != t {
      assert tokens == [tokens[0]] + tokens[1..];
      DiffOneIn(l, r, tokens[1..], t, e);
    }
  }

  lemma MemberIsToken(l: Value, r: Value, t: string)
    requires SameContainer(l, r) && (Child(l, t).Some? || Child(r, t).Some?)
    ensures t in Tokens(l, r)
  {
    if l.Object? {
      assert t in Elements(Tokens(l, r));
    } else {
      var i := ParseIndex(t).value;
      DecOfValue(t);
      assert Indices(0, Max(|l.items|, |r.items|))[i] == Dec(i);
    }
  }

  /** Wherever the values differ, something is reported: every difference is met by an edit. */
  lemma {:induction false} DiffCovers(l: Value, r: Value, p: seq<string>) returns (e: Edit)
    requires Resolve(l, p) != Resolve(r, p)
    ensures e in Diff(l, r) && Meets(e.path, p)
    decreases |p|
  {
    EmptyIffEqual(l, r);
    e := Diff(l, r)[0];
    if SameContainer(l, r) && p != [] {
      var t := p[0];
      var x, y := Child(l, t), Child(r, t);
      MemberIsToken(l, r, t);
      if x.Some? && y.Some? {
        var inner := DiffCovers(x.value, y.value, p[1..]);
        e := inner.(path := [t] + inner.path);
        var i :| 0 <= i < |Diff(x.value, y.value)| && Diff(x.value, y.value)[i] == inner;
        assert Under(t, Diff(x.value, y.value))[i] == e;
        MeetsUnder(t, inner.path, p);
      } else {
        e := Edit([t], x, y);
        assert [t] <= p;
      }
      DiffOneIn(l, r, Tokens(l, r), t, e);
    }
  }

  lemma MeetsUnder(t: string, a: seq<string>, p: seq<string>)
    requires p != [] && p[0] == t && Meets(a, p[1..])
    ensures Meets([t] + a, p)
  {
    assert p == [t] + p[1..];
  }

  /****** exactly which paths, and in which order ******/

  /** Both values have the path, and containers of one kind there. */
  predicate OneKind(l: Value, r: Value, p: seq<string>) {
    var x, y := Resolve(l, p), Resolve(r, p);
    x.Some? && y.Some? && SameContainer(x.value, y.value)
  }

  /**
   A place to report: the values differ there, not as containers of one kind, and everything above is
   such a pair, so that the difference is there and nowhere higher.
   */
  ghost predicate Reportable(l: Value, r: Value, p: seq<string>) {
    && Resolve(l, p) != Resolve(r, p) && !OneKind(l, r, p)
    && forall i | 0 <= i < |p| :: OneKind(l, r, p[..i])
  }

  predicate ReportableFrom(l: Value, r: Value, p: seq<string>)
    decreases |p|
  {
    if p == [] then l != r && !SameContainer(l, r)
    else
      SameContainer(l, r) &&
      var x, y := Child(l, p[0]), Child(r, p[0]);
      if x.Some? && y.Some? then ReportableFrom(x.value, y.value, p[1..]) else |p| == 1 && x != y
  }

  lemma OneKindBelow(l: Value, r: Value, p: seq<string>)
    requires p != [] && Child(l, p[0]).Some? && Child(r, p[0]).Some?
    ensures OneKind(l, r, p) == OneKind(Child(l, p[0]).value, Child(r, p[0]).value, p[1..])
  {
  }

  lemma {:induction false} ReportableIsReportableFrom(l: Value, r: Value, p: seq<string>)
    ensures Reportable(l, r, p) <==> ReportableFrom(l, r, p)
    decreases |p|
  {
    if p != [] {
      assert p[..0] == [];
      var x, y := Child(l, p[0]), Child(r, p[0]);
      if x.Some? && y.Some? {
        ReportableIsReportableFrom(x.value, y.value, p[1..]);
        OneKindBelow(l, r, p);
        forall i | 0 < i < |p| ensures OneKind(l, r, p[..i]) == OneKind(x.value, y.value, p[1..][..i - 1]) {
          assert p[..i][1..] == p[1..][..i - 1];
          OneKindBelow(l, r, p[..i]);
        }
        assert (forall i | 0 <= i < |p[1..]| :: OneKind(x.value, y.value, p[1..][..i])) <==>
               (forall i | 0 < i < |p| :: OneKind(l, r, p[..i])) by {
          forall i | 0 <= i < |p[1..]| ensures OneKind(x.value, y.value, p[1..][..i]) == OneKind(l, r, p[..i + 1]) { }
        }
      } else if |p| > 1 {
        assert p[..1][0] == p[0] && !OneKind(l, r, p[..1]);
      } else {
        assert p == [p[0]];
        ResolveOne(l, p[0]);
        ResolveOne(r, p[0]);
        assert (forall i | 0 <= i < |p| :: OneKind(l, r, p[..i])) <==> OneKind(l, r, p[..0]);
        assert OneKind(l, r, []) == SameContainer(l, r);
      }
    }
  }

  lemma {:induction false} InDiffOne(l: Value, r: Value, tokens: seq<string>, e: Edit)
    ensures e in DiffAt(l, r, tokens) <==> exists t :: t in tokens && e in DiffOne(l, r, t)
    decreases |tokens|
  {
    if tokens != [] {
      InDiffOne(l, r, tokens[1..], e);
      if t :| t in tokens && e in DiffOne(l, r, t) {
        DiffOneIn(l, r, tokens, t, e);
      }
      if e in DiffAt(l, r, tokens) {
        if e in DiffOne(l, r, tokens[0]) {
          assert tokens[0] in tokens;
        } else {
          var t :| t in tokens[1..] && e in DiffOne(l, r, t);
          assert t in tokens;
        }
      }
    }
  }

  /** The edits of one member: those of the pair below it, or one if it is on one side only. */
  lemma InOne(l: Value, r: Value, t: string, e: Edit)
    ensures var x, y := Child(l, t), Child(r, t);
            e in DiffOne(l, r, t) <==>
              if x.Some? && y.Some? then
                e.path != [] && e.path[0] == t && e.(path := e.path[1..]) in Diff(x.value, y.value)
              else e == Edit([t], x, y)
  {
    var x, y := Child(l, t), Child(r, t);
    if x.Some? && y.Some? {
      var es := Diff(x.value, y.value);
      if e in DiffOne(l, r, t) {
        var i :| 0 <= i < |es| && Under(t, es)[i] == e;
        assert e.path[1..] == es[i].path && e.(path := e.path[1..]) == es[i];
      }
      if e.path != [] && e.path[0] == t && e.(path := e.path[1..]) in es {
        var i :| 0 <= i < |es| && es[i] == e.(path := e.path[1..]);
        assert [t] + es[i].path == e.path;
        assert Under(t, es)[i] == e;
      }
    }
  }

  /** In the list are exactly the places to report, each with what is there on both sides. */
  lemma {:induction false} DiffExactly(l: Value, r: Value, e: Edit)
    ensures e in Diff(l, r) <==>
            Reportable(l, r, e.path) && e.left == Resolve(l, e.path) && e.right == Resolve(r, e.path)
    decreases l
  {
    ReportableIsReportableFrom(l, r, e.path);
    if l == r {
      SameResolves(l, e.path);
    } else if SameContainer(l, r) {
      InDiffOne(l, r, Tokens(l, r), e);
      if e.path == [] {
        forall t ensures e !in DiffOne(l, r, t) { InOne(l, r, t, e); }
      } else {
        InMember(l, r, e);
      }
    }
  }

  lemma SameResolves(v: Value, p: seq<string>)
    ensures !ReportableFrom(v, v, p)
  {
    ReportableIsReportableFrom(v, v, p);
  }

  /** An edit below the root comes from the member its path begins with. */
  lemma OfItsMember(l: Value, r: Value, e: Edit)
    requires SameContainer(l, r) && l != r && e.path != []
    ensures e in Diff(l, r) <==>
            e in DiffOne(l, r, e.path[0]) && (Child(l, e.path[0]).Some? || Child(r, e.path[0]).Some?)
  {
    var t := e.path[0];
    InDiffOne(l, r, Tokens(l, r), e);
    forall u | e in DiffOne(l, r, u) ensures u == t { InOne(l, r, u, e); }
    if Child(l, t).Some? || Child(r, t).Some? { MemberIsToken(l, r, t); }
    if t in Tokens(l, r) { TokensMeetAMember(l, r, t); }
  }

  lemma {:induction false} InMember(l: Value, r: Value, e: Edit)
    requires SameContainer(l, r) && l != r && e.path != []
    ensures e in Diff(l, r) <==>
            ReportableFrom(l, r, e.path) && e.left == Resolve(l, e.path) && e.right == Resolve(r, e.path)
    decreases l, 0
  {
    var t := e.path[0];
    var x, y := Child(l, t), Child(r, t);
    OfItsMember(l, r, e);
    InOne(l, r, t, e);
    if x.Some? && y.Some? {
      var inner := e.(path := e.path[1..]);
      DiffExactly(x.value, y.value, inner);
      ReportableIsReportableFrom(x.value, y.value, inner.path);
    } else {
      OneSided(l, r, e);
    }
  }

  lemma OneSided(l: Value, r: Value, e: Edit)
    requires SameContainer(l, r) && e.path != []
    requires Child(l, e.path[0]).None? || Child(r, e.path[0]).None?
    ensures e == Edit([e.path[0]], Child(l, e.path[0]), Child(r, e.path[0])) &&
            (Child(l, e.path[0]).Some? || Child(r, e.path[0]).Some?) <==>
            ReportableFrom(l, r, e.path) && e.left == Resolve(l, e.path) && e.right == Resolve(r, e.path)
  {
    if |e.path| == 1 {
      assert e.path == [e.path[0]];
      ResolveOne(l, e.path[0]);
      ResolveOne(r, e.path[0]);
    }
  }

  /** Keys in their order, indices in theirs. */
  predicate TokenBefore(v: Value, s: string, t: string) {
    if v.Object? then Less(s, t)
    else ParseIndex(s).Some? && ParseIndex(t).Some? && ParseIndex(s).value < ParseIndex(t).value
  }

  /** Neither path is above the other, and where they part the first goes first. */
  predicate Before(l: Value, r: Value, p: seq<string>, q: seq<string>)
    decreases |p|
  {
    p != [] && q != [] &&
    if p[0] != q[0] then TokenBefore(l, p[0], q[0])
    else
      var x, y := Child(l, p[0]), Child(r, p[0]);
      x.Some? && y.Some? && Before(x.value, y.value, p[1..], q[1..])
  }

  ghost predicate InOrder(l: Value, r: Value, es: seq<Edit>) {
    forall i, j | 0 <= i < j < |es| :: Before(l, r, es[i].path, es[j].path)
  }

  /** The list is in the order of the documents: keys sorted, elements by index, members depth first. */
  lemma {:induction false} DiffInOrder(l: Value, r: Value)
    ensures InOrder(l, r, Diff(l, r))
    decreases l, 2
  {
    if l != r && SameContainer(l, r) {
      TokensInOrder(l, r);
      forall t | t in Tokens(l, r) ensures Child(l, t).Some? || Child(r, t).Some? { TokensMeetAMember(l, r, t); }
      DiffAtInOrder(l, r, Tokens(l, r));
    }
  }

  lemma TokensInOrder(l: Value, r: Value)
    requires SameContainer(l, r)
    ensures forall i, j | 0 <= i < j < |Tokens(l, r)| :: TokenBefore(l, Tokens(l, r)[i], Tokens(l, r)[j])
  {
    forall i, j | 0 <= i < j < |Tokens(l, r)| ensures TokenBefore(l, Tokens(l, r)[i], Tokens(l, r)[j]) {
      if l.Array? {
        IndexRoundTrip(i);
        IndexRoundTrip(j);
      }
    }
  }

  lemma TokenBeforeIsStrict(v: Value, t: string)
    ensures !TokenBefore(v, t, t)
  {
    LessTotal(t, t);
  }

  lemma {:induction false} DiffAtInOrder(l: Value, r: Value, tokens: seq<string>)
    requires forall i, j | 0 <= i < j < |tokens| :: TokenBefore(l, tokens[i], tokens[j])
    requires forall t | t in tokens :: Child(l, t).Some? || Child(r, t).Some?
    ensures InOrder(l, r, DiffAt(l, r, tokens))
    decreases l, 1, |tokens|
  {
    if tokens != [] {
      var t := tokens[0];
      var one, more := DiffOne(l, r, t), DiffAt(l, r, tokens[1..]);
      DiffAtInOrder(l, r, tokens[1..]);
      DiffAtFaithful(l, r, tokens[1..]);
      DiffOneInOrder(l, r, t);
      forall i, j | 0 <= i < |one| && 0 <= j < |more| ensures Before(l, r, one[i].path, more[j].path) {
        assert one[i] in one && more[j] in more;
        InOne(l, r, t, one[i]);
        var k :| 0 <= k < |tokens[1..]| && tokens[1..][k] == more[j].path[0];
        assert TokenBefore(l, t, tokens[k + 1]);
        TokenBeforeIsStrict(l, t);
      }
    }
  }

  lemma {:induction false} DiffOneInOrder(l: Value, r: Value, t: string)
    ensures InOrder(l, r, DiffOne(l, r, t))
    decreases l, 0
  {
    var x, y := Child(l, t), Child(r, t);
    if x.Some? && y.Some? {
      DiffInOrder(x.value, y.value);
      var es := Diff(x.value, y.value);
      forall i, j | 0 <= i < j < |es| ensures Before(l, r, Under(t, es)[i].path, Under(t, es)[j].path) {
        assert Before(x.value, y.value, es[i].path, es[j].path);
        assert ([t] + es[i].path)[1..] == es[i].path && ([t] + es[j].path)[1..] == es[j].path;
      }
    }
  }

  /****** the paths of one diff are pairwise distinct ******/

  ghost predicate DistinctPaths(es: seq<Edit>) {
    forall i, j | 0 <= i < j < |es| :: es[i].path != es[j].path
  }

  lemma {:induction false} DiffDistinct(l: Value, r: Value)
    ensures DistinctPaths(Diff(l, r))
    decreases l, 2
  {
    if l != r && SameContainer(l, r) {
      var ts := Tokens(l, r);
      forall t | t in ts ensures Child(l, t).Some? || Child(r, t).Some? { TokensMeetAMember(l, r, t); }
      forall i, j | 0 <= i < j < |ts| ensures ts[i] != ts[j] { TokensDistinct(l, r, i, j); }
      DiffAtDistinct(l, r, ts);
    }
  }

  lemma {:induction false} DiffAtDistinct(l: Value, r: Value, tokens: seq<string>)
    requires forall t | t in tokens :: Child(l, t).Some? || Child(r, t).Some?
    requires forall i, j | 0 <= i < j < |tokens| :: tokens[i] != tokens[j]
    ensures DistinctPaths(DiffAt(l, r, tokens))
    decreases l, 1, |tokens|
  {
    if tokens != [] {
      var x, y := Child(l, tokens[0]), Child(r, tokens[0]);
      var head, rest := DiffOne(l, r, tokens[0]), DiffAt(l, r, tokens[1..]);
      if x.Some? && y.Some? {
        DiffDistinct(x.value, y.value);
        var es := Diff(x.value, y.value);
        forall i, j | 0 <= i < j < |head| ensures head[i].path != head[j].path {
          assert head[i].path[1..] == es[i].path && head[j].path[1..] == es[j].path;
        }
      }
      DiffAtDistinct(l, r, tokens[1..]);
      DiffAtFaithful(l, r, tokens[1..]);
      forall i, j | 0 <= i < |head| && 0 <= j < |rest| ensures head[i].path != rest[j].path {
        assert head[i].path[0] == tokens[0];
        assert rest[j] in rest;
      }
    }
  }

  /****** the list is a complete patch ******/

  function Replay(v: Value, es: seq<Edit>): Value
    decreases |es|
  {
    if es == [] then v else Replay(Put(v, es[0].path, es[0].right), es[1..])
  }

  lemma {:induction false} ReplayConcat(v: Value, a: seq<Edit>, b: seq<Edit>)
    ensures Replay(v, a + b) == Replay(Replay(v, a), b)
    decreases |a|
  {
    if a == [] {
      assert a + b == b;
    } else {
      assert (a + b)[1..] == a[1..] + b;
      ReplayConcat(Put(v, a[0].path, a[0].right), a[1..], b);
    }
  }

  lemma SetChildAgain(v: Value, t: string, a: Value, b: Value)
    requires Child(v, t).Some?
    ensures Child(SetChild(v, t, Some(a)), t) == Some(a)
    ensures SetChild(SetChild(v, t, Some(a)), t, Some(b)) == SetChild(v, t, Some(b))
    ensures SetChild(v, t, Child(v, t)) == v
  {
    if v.Object? {
      assert v.fields[t := a][t := b] == v.fields[t := b];
      assert v.fields[t := v.fields[t]] == v.fields;
    }
  }

  /** Replaying below one member changes that member only. */
  lemma {:induction false} ReplayUnder(v: Value, t: string, es: seq<Edit>)
    requires Child(v, t).Some?
    requires forall e | e in es :: e.path == [] ==> e.right.Some?
    ensures Replay(v, Under(t, es)) == SetChild(v, t, Some(Replay(Child(v, t).value, es)))
    decreases |es|
  {
    if es == [] {
      SetChildAgain(v, t, v, v);
    } else {
      var c := Child(v, t).value;
      var e := es[0];
      var c' := Put(c, e.path, e.right);
      assert e in es;
      var path := Under(t, es)[0].path;
      assert path == [t] + e.path && path[1..] == e.path;
      assert Put(v, path, e.right) == SetChild(v, t, Some(c'));
      SetChildAgain(v, t, c', Replay(c', es[1..]));
      assert Under(t, es)[1..] == Under(t, es[1..]);
      ReplayUnder(SetChild(v, t, Some(c')), t, es[1..]);
    }
  }

  /** Replaying one member's part of the diff sets that member to the right side's. */
  lemma ReplayOne(v: Value, l: Value, r: Value, t: string)
    requires Child(v, t) == Child(l, t)
    requires forall x, y | Child(l, t) == Some(x) && Child(r, t) == Some(y) :: Replay(x, Diff(x, y)) == y
    ensures Child(l, t).Some? || Child(r, t).Some? ==> Replay(v, DiffOne(l, r, t)) == SetChild(v, t, Child(r, t))
  {
    var x, y := Child(l, t), Child(r, t);
    if x.Some? && y.Some? {
      DiffFaithful(x.value, y.value);
      forall e | e in Diff(x.value, y.value) ensures e.path == [] ==> e.right.Some? { assert Faithful(x.value, y.value, e); }
      ReplayUnder(v, t, Diff(x.value, y.value));
    } else {
      assert Put(v, [t], y) == SetChild(v, t, y);
    }
  }

  /** Replaying the right-hand sides of the diff onto the left value yields the right one. */
  lemma {:induction false} DiffIsPatch(l: Value, r: Value)
    ensures Replay(l, Diff(l, r)) == r
    decreases l, 2
  {
    if l == r {
    } else if l.Object? && r.Object? {
      forall k | k in Tokens(l, r) ensures Child(l, k).Some? || Child(r, k).Some? { TokensMeetAMember(l, r, k); }
      PatchObject(l, r, l, Tokens(l, r));
    } else if l.Array? && r.Array? {
      PatchArray(l, r, 0);
      assert Halfway(l, r, 0) == l;
    } else {
      assert Replay(Put(l, [], Some(r)), []) == r;
    }
  }

  /** `v` is `r` but for the keys still to come, where it is `l`. */
  lemma {:induction false} PatchObject(l: Value, r: Value, v: Value, keys: seq<string>)
    requires l.Object? && r.Object? && v.Object?
    requires forall i, j | 0 <= i < j < |keys| :: Less(keys[i], keys[j])
    requires forall k | k in keys :: Child(l, k).Some? || Child(r, k).Some?
    requires forall k :: Child(v, k) == if k in keys then Child(l, k) else Child(r, k)
    ensures Replay(v, DiffAt(l, r, keys)) == r
    decreases l, 1, |keys|
  {
    if keys == [] {
      forall k | k in v.fields || k in r.fields ensures k in v.fields && k in r.fields && v.fields[k] == r.fields[k] {
        assert Child(v, k) == Child(r, k);
      }
      assert v.fields == r.fields;
    } else {
      var k := keys[0];
      var x, y := Child(l, k), Child(r, k);
      if x.Some? && y.Some? { DiffIsPatch(x.value, y.value); }
      ReplayOne(v, l, r, k);
      ReplayConcat(v, DiffOne(l, r, k), DiffAt(l, r, keys[1..]));
      var v' := SetChild(v, k, y);
      LessTotal(k, k);
      forall j ensures Child(v', j) == if j in keys[1..] then Child(l, j) else Child(r, j) {
        assert keys == [k] + keys[1..];
        if j == k {
          assert j !in keys[1..];
        } else {
          assert Child(v', j) == Child(v, j);
        }
      }
      PatchObject(l, r, v', keys[1..]);
    }
  }

  /** The array once the tokens before i are replayed. */
  function Halfway(l: Value, r: Value, i: nat): Value
    requires l.Array? && r.Array?
  {
    Array(r.items[..Min(i, |r.items|)] + (if i <= |r.items| && i <= |l.items| then l.items[i..] else []))
  }

  lemma HalfwayStep(l: Value, r: Value, i: nat)
    requires l.Array? && r.Array? && i < Max(|l.items|, |r.items|)
    ensures i <= |r.items| ==> Child(Halfway(l, r, i), Dec(i)) == Child(l, Dec(i))
    ensures SetChild(Halfway(l, r, i), Dec(i), Child(r, Dec(i))) == Halfway(l, r, i + 1)
  {
    IndexRoundTrip(i);
    var v := Halfway(l, r, i);
    if i < |r.items| {
      assert r.items[..i] + [r.items[i]] == r.items[..i + 1];
      if i < |l.items| {
        assert v.items[i := r.items[i]] == r.items[..i + 1] + l.items[i + 1..];
      }
    } else {
      assert v.items[..Min(|v.items|, i)] == r.items;
    }
  }

  lemma {:induction false} PatchArray(l: Value, r: Value, i: nat)
    requires l.Array? && r.Array? && i <= Max(|l.items|, |r.items|)
    ensures Replay(Halfway(l, r, i), DiffAt(l, r, Indices(i, Max(|l.items|, |r.items|)))) == r
    decreases l, 1, Max(|l.items|, |r.items|) - i
  {
    var n := Max(|l.items|, |r.items|);
    var v := Halfway(l, r, i);
    if i == n {
      assert v.items == r.items;
    } else {
      var t := Dec(i);
      IndexRoundTrip(i);
      assert Indices(i, n)[0] == t && Indices(i, n)[1..] == Indices(i + 1, n);
      var x, y := Child(l, t), Child(r, t);
      if x.Some? && y.Some? { DiffIsPatch(x.value, y.value); }
      HalfwayStep(l, r, i);
      if i <= |r.items| {
        ReplayOne(v, l, r, t);
      } else {
        assert DiffOne(l, r, t) == [Edit([t], x, None)];
        assert Replay(v, [Edit([t], x, None)]) == Replay(Put(v, [t], None), []) == SetChild(v, t, y);
      }
      ReplayConcat(v, DiffOne(l, r, t), DiffAt(l, r, Indices(i + 1, n)));
      PatchArray(l, r, i + 1);
    }
  }
}
