/**
 Transforms of the rule array of the `config/access` document, and what they mean for the
 requests the rules authorize.
 */
module AccessRules {
  import opened Common
  import opened Json

  type Rules = seq<Value>

  function InsertRule(rs: Rules, index: nat, rule: Value): Rules
    requires index <= |rs|
  {
    rs[..index] + [rule] + rs[index..]
  }

  function RemoveRule(rs: Rules, index: nat): Rules
    requires index < |rs|
  {
    rs[..index] + rs[index + 1..]
  }

  /** `to` is where the rule ends up in the result. */
  function MoveRule(rs: Rules, from: nat, to: nat): Rules
    requires from < |rs| && to < |rs|
  {
    InsertRule(RemoveRule(rs, from), to, rs[from])
  }

  /** The rules from i on whose original index is not in `gone`, in order. */
  function Keep(rs: Rules, gone: set<nat>, i: nat): (r: Rules)
    requires i <= |rs|
    decreases |rs| - i
  {
    if i == |rs| then [] else if i in gone then Keep(rs, gone, i + 1) else [rs[i]] + Keep(rs, gone, i + 1)
  }

  /** And the rules whose index is in it. */
  function Taken(rs: Rules, gone: set<nat>, i: nat): (r: Rules)
    requires i <= |rs|
    decreases |rs| - i
  {
    if i == |rs| then [] else if i in gone then [rs[i]] + Taken(rs, gone, i + 1) else Taken(rs, gone, i + 1)
  }

  lemma {:induction false} KeepNone(rs: Rules, gone: set<nat>, i: nat)
    requires i <= |rs| && forall j | j in gone :: j < i
    ensures Keep(rs, gone, i) == rs[i..] && Taken(rs, gone, i) == []
    decreases |rs| - i
  {
    if i < |rs| { KeepNone(rs, gone, i + 1); }
  }

  lemma HeadThen(rs: Rules, i: nat, n: nat, tail: Rules)
    requires i < n <= |rs|
    ensures [rs[i]] + (rs[i + 1..n] + tail) == rs[i..n] + tail
  {
  }

  /** Indices below every removed one are untouched. */
  lemma {:induction false} KeepBelow(rs: Rules, gone: set<nat>, i: nat, n: nat)
    requires i <= n <= |rs| && forall j | j in gone :: j >= n
    ensures Keep(rs, gone, i) == rs[i..n] + Keep(rs, gone, n)
    decreases n - i
  {
    if i < n {
      KeepBelow(rs, gone, i + 1, n);
      HeadThen(rs, i, n, Keep(rs, gone, n));
    }
  }

  lemma {:induction false} KeepIgnoresPast(rs: Rules, gone: set<nat>, extra: nat, i: nat)
    requires extra < i <= |rs|
    ensures Keep(rs, gone + {extra}, i) == Keep(rs, gone, i)
    decreases |rs| - i
  {
    if i < |rs| { KeepIgnoresPast(rs, gone, extra, i + 1); }
  }

  lemma LargestExists(s: set<nat>)
    requires s != {}
    ensures exists m :: m in s && forall j | j in s :: j <= m
    decreases s
  {
    var x :| x in s;
    if s - {x} == {} {
      assert s == {x};
    } else {
      LargestExists(s - {x});
      var m :| m in s - {x} && forall j | j in s - {x} :: j <= m;
      var top := Max(m, x);
      assert forall j | j in s :: j == x || j in s - {x};
      assert top in s && forall j | j in s :: j <= top;
    }
  }

  lemma KeepOneLess(rs: Rules, done: set<nat>, i: nat)
    requires i < |rs| && forall j | j in done :: i < j
    ensures |Keep(rs, done, 0)| > i && RemoveRule(Keep(rs, done, 0), i) == Keep(rs, done + {i}, 0)
  {
    KeepBelow(rs, done, 0, i + 1);
    KeepBelow(rs, done + {i}, 0, i);
    KeepIgnoresPast(rs, done, i, i + 1);
    var tail := Keep(rs, done, i + 1);
    assert rs[0..i + 1] + tail == rs[0..i] + [rs[i]] + tail;
  }

  /** Removes each index of the set from the back, so that none shifts another. */
  method RemoveAll(rs: Rules, unique: set<nat>) returns (rules: Rules)
    requires forall i | i in unique :: i < |rs|
    ensures rules == Keep(rs, unique, 0)
  {
    rules := rs;
    var rest := unique;
    KeepNone(rs, {}, 0);
    assert unique - rest == {};
    while rest != {}
      invariant rest <= unique && forall i, j | i in rest && j in unique - rest :: i < j
      invariant rules == Keep(rs, unique - rest, 0)
      decreases rest
    {
      LargestExists(rest);
      var i :| i in rest && forall j | j in rest :: j <= i;
      var done := unique - rest;
      KeepOneLess(rs, done, i);
      rules := RemoveRule(rules, i);
      assert unique - (rest - {i}) == done + {i};
      rest := rest - {i};
    }
    assert unique - rest == unique;
  }

  /****** the edits undo each other ******/

  lemma InsertThenRemove(rs: Rules, index: nat, rule: Value)
    requires index <= |rs|
    ensures RemoveRule(InsertRule(rs, index, rule), index) == rs
  {
  }

  lemma RemoveThenInsert(rs: Rules, index: nat)
    requires index < |rs|
    ensures InsertRule(RemoveRule(rs, index), index, rs[index]) == rs
  {
  }

  lemma MoveBack(rs: Rules, from: nat, to: nat)
    requires from < |rs| && to < |rs|
    ensures |MoveRule(rs, from, to)| == |rs| && MoveRule(rs, from, to)[to] == rs[from]
    ensures MoveRule(MoveRule(rs, from, to), to, from) == rs
  {
    InsertThenRemove(RemoveRule(rs, from), to, rs[from]);
    RemoveThenInsert(rs, from);
  }

  /** A single removal is the filter too. */
  lemma RemoveIsKeep(rs: Rules, index: nat)
    requires index < |rs|
    ensures Keep(rs, {index}, 0) == RemoveRule(rs, index)
  {
    KeepBelow(rs, {index}, 0, index);
    KeepNone(rs, {index}, index + 1);
    assert Keep(rs, {index}, index) == rs[index + 1..];
    assert rs[0..index] == rs[..index];
  }

  /****** what they do to the collection of rules ******/

  lemma InsertCounts(rs: Rules, index: nat, rule: Value)
    requires index <= |rs|
    ensures multiset(InsertRule(rs, index, rule)) == multiset(rs) + multiset{rule}
  {
    assert rs == rs[..index] + rs[index..];
  }

  lemma RemoveCounts(rs: Rules, index: nat)
    requires index < |rs|
    ensures multiset(rs) == multiset(RemoveRule(rs, index)) + multiset{rs[index]}
  {
    RemoveThenInsert(rs, index);
    InsertCounts(RemoveRule(rs, index), index, rs[index]);
  }

  lemma MoveCounts(rs: Rules, from: nat, to: nat)
    requires from < |rs| && to < |rs|
    ensures multiset(MoveRule(rs, from, to)) == multiset(rs)
  {
    RemoveCounts(rs, from);
    InsertCounts(RemoveRule(rs, from), to, rs[from]);
  }

  lemma HeadCounts(head: Value, tail: Rules)
    ensures multiset([head] + tail) == multiset{head} + multiset(tail)
  {
  }

  lemma {:induction false} KeepCounts(rs: Rules, gone: set<nat>, i: nat)
    requires i <= |rs|
    ensures multiset(rs[i..]) == multiset(Keep(rs, gone, i)) + multiset(Taken(rs, gone, i))
    decreases |rs| - i
  {
    if i < |rs| {
      KeepCounts(rs, gone, i + 1);
      HeadCounts(rs[i], rs[i + 1..]);
      assert rs[i..] == [rs[i]] + rs[i + 1..];
      HeadCounts(rs[i], Keep(rs, gone, i + 1));
      HeadCounts(rs[i], Taken(rs, gone, i + 1));
    }
  }

  /****** what they mean: a request is authorized when some rule grants it ******/

  type Grants<!Req> = (Value, Req) -> bool

  ghost predicate Authorized<Req>(grants: Grants<Req>, rs: Rules, req: Req) {
    exists i | 0 <= i < |rs| :: grants(rs[i], req)
  }

  /** A document that has every rule of another authorizes all it does. */
  lemma MoreRulesGrantMore<Req>(grants: Grants<Req>, before: Rules, after: Rules, req: Req)
    requires multiset(before) <= multiset(after)
    ensures Authorized(grants, before, req) ==> Authorized(grants, after, req)
  {
    if Authorized(grants, before, req) {
      var i :| 0 <= i < |before| && grants(before[i], req);
      assert before[i] in multiset(before);
      assert before[i] in multiset(after);
      var j :| 0 <= j < |after| && after[j] == before[i];
    }
  }

  /** Reordering authorizes exactly the same requests. */
  lemma MoveAuthorizesTheSame<Req>(grants: Grants<Req>, rs: Rules, from: nat, to: nat, req: Req)
    requires from < |rs| && to < |rs|
    ensures Authorized(grants, MoveRule(rs, from, to), req) <==> Authorized(grants, rs, req)
  {
    MoveCounts(rs, from, to);
    MoreRulesGrantMore(grants, rs, MoveRule(rs, from, to), req);
    MoreRulesGrantMore(grants, MoveRule(rs, from, to), rs, req);
  }

  /** A new rule adds exactly what it grants, wherever it is put. */
  lemma InsertAddsItsGrants<Req>(grants: Grants<Req>, rs: Rules, at: nat, rule: Value, req: Req)
    requires at <= |rs|
    ensures Authorized(grants, InsertRule(rs, at, rule), req) <==> Authorized(grants, rs, req) || grants(rule, req)
  {
    var after := InsertRule(rs, at, rule);
    InsertCounts(rs, at, rule);
    MoreRulesGrantMore(grants, rs, after, req);
    assert after[at] == rule;
    if Authorized(grants, after, req) && !grants(rule, req) {
      var i :| 0 <= i < |after| && grants(after[i], req);
      assert after[i] == rs[if i < at then i else i - 1];
    }
  }

  /** Removing rules takes away exactly what only they granted. */
  lemma RemoveTakesItsGrants<Req>(grants: Grants<Req>, rs: Rules, gone: set<nat>, req: Req)
    ensures Authorized(grants, rs, req)
       <==> Authorized(grants, Keep(rs, gone, 0), req) || Authorized(grants, Taken(rs, gone, 0), req)
  {
    var kept, taken := Keep(rs, gone, 0), Taken(rs, gone, 0);
    KeepCounts(rs, gone, 0);
    assert rs[0..] == rs;
    MoreRulesGrantMore(grants, kept, rs, req);
    MoreRulesGrantMore(grants, taken, rs, req);
    MoreRulesGrantMore(grants, rs, kept + taken, req);
    if Authorized(grants, kept + taken, req) {
      var i :| 0 <= i < |kept + taken| && grants((kept + taken)[i], req);
      assert (kept + taken)[i] == if i < |kept| then kept[i] else taken[i - |kept|];
    }
  }
}
