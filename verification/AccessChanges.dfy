/**
 The two summaries of a change to the rules: by the exact indices a transform touched, and, for a
 hand-edited document, by matching rules on content.
 */
module AccessChanges {
  import opened Common
  import opened Json
  import opened AccessRules

  datatype RuleChange = RuleChange(index: nat, before: Option<Value>, after: Option<Value>)

  /** Original and resulting indices a transform touched. */
  datatype Touched = Touched(before: set<nat>, after: set<nat>)

  datatype Changes = Changes(
    changed: seq<RuleChange>,
    kept: nat,
    touched: Touched,
    positionsApproximate: bool,
    moved: seq<(nat, nat)>)

  function At(rs: Rules, i: nat): Option<Value> { if i < |rs| then Some(rs[i]) else None }

  function BeforeValues(cs: seq<RuleChange>): multiset<Value> {
    if cs == [] then multiset{}
    else BeforeValues(cs[..|cs| - 1]) + (if cs[|cs| - 1].before.Some? then multiset{cs[|cs| - 1].before.value} else multiset{})
  }

  function AfterValues(cs: seq<RuleChange>): multiset<Value> {
    if cs == [] then multiset{}
    else AfterValues(cs[..|cs| - 1]) + (if cs[|cs| - 1].after.Some? then multiset{cs[|cs| - 1].after.value} else multiset{})
  }

  lemma {:induction false} ValuesConcat(a: seq<RuleChange>, b: seq<RuleChange>)
    ensures BeforeValues(a + b) == BeforeValues(a) + BeforeValues(b)
    ensures AfterValues(a + b) == AfterValues(a) + AfterValues(b)
    decreases |b|
  {
    if b == [] {
      assert a + b == a;
    } else {
      assert (a + b)[..|a + b| - 1] == a + b[..|b| - 1];
      ValuesConcat(a, b[..|b| - 1]);
    }
  }

  /** Every change with a before-value may take a grant away; the others only add. */
  ghost predicate HasBefore(cs: seq<RuleChange>) { exists i | 0 <= i < |cs| :: cs[i].before.Some? }

  lemma {:induction false} NoBeforeNoValues(cs: seq<RuleChange>)
    ensures !HasBefore(cs) ==> BeforeValues(cs) == multiset{}
    decreases |cs|
  {
    if cs != [] && !HasBefore(cs) {
      assert cs[|cs| - 1].before.None?;
      NoBeforeNoValues(cs[..|cs| - 1]);
    }
  }

  /****** by content ******/

  /** The values whose flag is `flag`, among the first n. */
  function Flagged(rs: Rules, used: seq<bool>, flag: bool, n: nat): multiset<Value>
    requires |used| == |rs| && n <= |rs|
  {
    if n == 0 then multiset{}
    else if used[n - 1] == flag then Flagged(rs, used, flag, n - 1) + multiset{rs[n - 1]}
    else Flagged(rs, used, flag, n - 1)
  }

  lemma SplitStep(t: multiset<Value>, f: multiset<Value>, all: multiset<Value>, v: Value, flag: bool,
                  t': multiset<Value>, f': multiset<Value>)
    requires t + f == all
    requires t' == (if flag then t + multiset{v} else t) && f' == if flag then f else f + multiset{v}
    ensures t' + f' == all + multiset{v}
  {
  }

  lemma {:induction false} FlaggedSplit(rs: Rules, used: seq<bool>, n: nat)
    requires |used| == |rs| && n <= |rs|
    ensures Flagged(rs, used, true, n) + Flagged(rs, used, false, n) == multiset(rs[..n])
    decreases n
  {
    if n > 0 {
      FlaggedSplit(rs, used, n - 1);
      SplitStep(Flagged(rs, used, true, n - 1), Flagged(rs, used, false, n - 1), multiset(rs[..n - 1]), rs[n - 1],
                used[n - 1], Flagged(rs, used, true, n), Flagged(rs, used, false, n));
      TakeOne(rs, n - 1);
    }
  }

  lemma {:induction false} FlagOne(rs: Rules, used: seq<bool>, i: nat, n: nat)
    requires |used| == |rs| && n <= |rs| && i < |rs| && !used[i]
    ensures Flagged(rs, used[i := true], true, n)
         == Flagged(rs, used, true, n) + (if i < n then multiset{rs[i]} else multiset{})
  {
    if n > 0 { FlagOne(rs, used, i, n - 1); }
  }

  lemma {:induction false} NoneUnused(rs: Rules, used: seq<bool>, v: Value, n: nat)
    requires |used| == |rs| && n <= |rs|
    requires forall i | 0 <= i < n && rs[i] == v :: used[i]
    ensures v !in Flagged(rs, used, false, n)
  {
    if n > 0 { NoneUnused(rs, used, v, n - 1); }
  }

  lemma {:induction false} UnusedCounts(rs: Rules, used: seq<bool>, i: nat, n: nat)
    requires |used| == |rs| && i < n <= |rs| && !used[i]
    ensures rs[i] in Flagged(rs, used, false, n)
  {
    if i < n - 1 { UnusedCounts(rs, used, i, n - 1); }
  }

  /** Marks every rule equal to at least one other. */
  function DuplicateFlags(rs: Rules): (r: seq<bool>)
    ensures |r| == |rs|
  {
    seq(|rs|, i requires 0 <= i < |rs| => exists j | 0 <= j < |rs| :: j != i && rs[j] == rs[i])
  }

  /** Which are the rules the document holds more than once. */
  lemma FlaggedIffRepeated(rs: Rules, i: nat)
    requires i < |rs|
    ensures DuplicateFlags(rs)[i] <==> multiset(rs)[rs[i]] > 1
  {
    RemoveCounts(rs, i);
    var rest := RemoveRule(rs, i);
    if DuplicateFlags(rs)[i] {
      var j :| 0 <= j < |rs| && j != i && rs[j] == rs[i];
      assert rest[if j < i then j else j - 1] == rs[i];
    }
    if rs[i] in rest {
      var k :| 0 <= k < |rest| && rest[k] == rs[i];
      assert rs[if k < i then k else k + 1] == rs[i];
    }
    assert rs[i] in rest <==> multiset(rest)[rs[i]] > 0;
  }

  /** A removal or an addition, of the rule at its index. */
  ghost predicate InPlace(before: Rules, after: Rules, x: RuleChange) {
    && (x.before.Some? ==> x.after.None? && At(before, x.index) == x.before)
    && (x.after.Some? ==> x.before.None? && At(after, x.index) == x.after)
    && (x.before.Some? || x.after.Some?)
  }

  /** What is kept, removed and added, repeats counted. */
  ghost predicate CountsByContent(before: Rules, after: Rules, c: Changes) {
    && c.kept == |multiset(before) * multiset(after)|
    && BeforeValues(c.changed) == multiset(before) - multiset(after)
    && AfterValues(c.changed) == multiset(after) - multiset(before)
  }

  /**
   What a content-matched summary says: the kept rules are the multiset intersection, the
   before-values what `before` has over `after`, the after-values the reverse, each at its index.
   */
  ghost predicate ContentSummary(before: Rules, after: Rules, c: Changes) {
    && CountsByContent(before, after, c)
    && (forall x | x in c.changed :: InPlace(before, after, x))
    && c.touched == Touched(set x | x in c.changed && x.before.Some? :: x.index,
                            set x | x in c.changed && x.after.Some? :: x.index)
    && |c.touched.before| == |before| - c.kept && |c.touched.after| == |after| - c.kept
    && (c.positionsApproximate <==> exists i, j | 0 <= i < j < |before| :: before[i] == before[j])
    && c.moved == []
  }

  /** One step of the greedy matching keeps the matched rules the intersection so far. */
  lemma MatchStep(b: multiset<Value>, a: multiset<Value>, v: Value, free: bool)
    requires free <==> (b * a)[v] < b[v]
    ensures b * (a + multiset{v}) == (if free then b * a + multiset{v} else b * a)
    ensures (a + multiset{v}) - b == (if free then a - b else (a - b) + multiset{v})
  {
    var a' := a + multiset{v};
    var grown, left := if free then b * a + multiset{v} else b * a, if free then a - b else (a - b) + multiset{v};
    forall w ensures (b * a')[w] == grown[w] && (a' - b)[w] == left[w] {
      assert (b * a)[w] == Min(b[w], a[w]);
      assert (b * a')[w] == Min(b[w], a'[w]);
      assert (b * a)[v] == Min(b[v], a[v]);
    }
  }

  /** The first unused rule of `before` equal to `rule`. */
  method FindUnused(before: Rules, used: seq<bool>, rule: Value) returns (found: Option<nat>)
    requires |used| == |before|
    ensures found.Some? ==> found.value < |before| && !used[found.value] && before[found.value] == rule
    ensures found.None? ==> forall i | 0 <= i < |before| && before[i] == rule :: used[i]
  {
    for i := 0 to |before|
      invariant forall j | 0 <= j < i && before[j] == rule :: used[j]
    {
      if !used[i] && before[i] == rule {
        return Some(i);
      }
    }
    found := None;
  }

  lemma Push(cs: seq<RuleChange>, x: RuleChange)
    ensures BeforeValues(cs + [x]) == BeforeValues(cs) + (if x.before.Some? then multiset{x.before.value} else multiset{})
    ensures AfterValues(cs + [x]) == AfterValues(cs) + (if x.after.Some? then multiset{x.after.value} else multiset{})
  {
    assert (cs + [x])[..|cs + [x]| - 1] == cs;
  }

  /** Additions, in index order, at indices below n. */
  ghost predicate Additions(after: Rules, added: seq<RuleChange>, n: nat) {
    && (forall i | 0 <= i < |added| ::
          added[i].index < n <= |after| && added[i].before.None? && added[i].after == Some(after[added[i].index]))
    && (forall i, j | 0 <= i < j < |added| :: added[i].index < added[j].index)
  }

  ghost predicate Removals(before: Rules, removed: seq<RuleChange>, n: nat) {
    && (forall i | 0 <= i < |removed| ::
          removed[i].index < n <= |before| && removed[i].after.None? && removed[i].before == Some(before[removed[i].index]))
    && (forall i, j | 0 <= i < j < |removed| :: removed[i].index < removed[j].index)
  }

  /** The state of the greedy matching after the first k rules of `after`. */
  ghost predicate Matched(before: Rules, after: Rules, k: nat, used: seq<bool>, kept: nat, added: seq<RuleChange>) {
    && |used| == |before| && k <= |after|
    && var b, a := multiset(before), multiset(after[..k]);
    && Flagged(before, used, true, |before|) == b * a
    && kept == |b * a| && kept + |added| == k
    && AfterValues(added) == a - b && BeforeValues(added) == multiset{}
    && Additions(after, added, k)
  }

  lemma TakeOne(after: Rules, k: nat)
    requires k < |after|
    ensures multiset(after[..k + 1]) == multiset(after[..k]) + multiset{after[k]}
  {
    assert after[..k + 1] == after[..k] + [after[k]];
  }

  lemma MatchedOne(before: Rules, after: Rules, k: nat, used: seq<bool>, kept: nat, added: seq<RuleChange>, i: nat)
    requires Matched(before, after, k, used, kept, added) && k < |after|
    requires i < |before| && !used[i] && before[i] == after[k]
    ensures Matched(before, after, k + 1, used[i := true], kept + 1, added)
  {
    TakeOne(after, k);
    MatchFound(before, used, after[k], Some(i));
    MatchStep(multiset(before), multiset(after[..k]), after[k], true);
    FlagOne(before, used, i, |before|);
    AdditionsStep(after, added, k);
  }

  lemma MatchedNone(before: Rules, after: Rules, k: nat, used: seq<bool>, kept: nat, added: seq<RuleChange>)
    requires Matched(before, after, k, used, kept, added) && k < |after|
    requires forall i | 0 <= i < |before| && before[i] == after[k] :: used[i]
    ensures Matched(before, after, k + 1, used, kept, added + [RuleChange(k, None, Some(after[k]))])
  {
    TakeOne(after, k);
    MatchFound(before, used, after[k], None);
    MatchStep(multiset(before), multiset(after[..k]), after[k], false);
    Push(added, RuleChange(k, None, Some(after[k])));
    AdditionsStep(after, added, k);
  }

  lemma AdditionsStep(after: Rules, added: seq<RuleChange>, k: nat)
    requires Additions(after, added, k) && k < |after|
    ensures Additions(after, added, k + 1)
    ensures Additions(after, added + [RuleChange(k, None, Some(after[k]))], k + 1)
  {
  }

  /** The greedy pass: which rules of `before` are matched, how many, and what is left of `after`. */
  method MatchRules(before: Rules, after: Rules) returns (used: seq<bool>, kept: nat, added: seq<RuleChange>)
    ensures Matched(before, after, |after|, used, kept, added)
  {
    used, added, kept := seq(|before|, _ => false), [], 0;
    AllUnused(before, used, |before|);
    for k := 0 to |after|
      invariant Matched(before, after, k, used, kept, added)
    {
      var found := FindUnused(before, used, after[k]);
      if found.Some? {
        MatchedOne(before, after, k, used, kept, added, found.value);
        used := used[found.value := true];
        kept := kept + 1;
      } else {
        MatchedNone(before, after, k, used, kept, added);
        added := added + [RuleChange(k, None, Some(after[k]))];
      }
    }
  }

  /** The first n rules of `before`, less the matched ones. */
  ghost predicate Left(before: Rules, used: seq<bool>, n: nat, removed: seq<RuleChange>) {
    && |used| == |before| && n <= |before|
    && Removals(before, removed, n)
    && BeforeValues(removed) == Flagged(before, used, false, n) && AfterValues(removed) == multiset{}
    && |removed| == |Flagged(before, used, false, n)|
  }

  lemma LeftStep(before: Rules, used: seq<bool>, n: nat, removed: seq<RuleChange>)
    requires Left(before, used, n, removed) && n < |before|
    ensures Left(before, used, n + 1, if used[n] then removed else removed + [RuleChange(n, Some(before[n]), None)])
  {
    RemovalsStep(before, removed, n);
    Push(removed, RuleChange(n, Some(before[n]), None));
  }

  lemma RemovalsStep(before: Rules, removed: seq<RuleChange>, n: nat)
    requires Removals(before, removed, n) && n < |before|
    ensures Removals(before, removed, n + 1)
    ensures Removals(before, removed + [RuleChange(n, Some(before[n]), None)], n + 1)
  {
  }

  /** What of `before` is left unmatched. */
  method Unmatched(before: Rules, used: seq<bool>) returns (removed: seq<RuleChange>)
    requires |used| == |before|
    ensures Left(before, used, |before|, removed)
  {
    removed := [];
    for i := 0 to |before|
      invariant Left(before, used, i, removed)
    {
      LeftStep(before, used, i, removed);
      if !used[i] {
        removed := removed + [RuleChange(i, Some(before[i]), None)];
      }
    }
  }

  method MultisetChanges(before: Rules, after: Rules) returns (c: Changes)
    ensures ContentSummary(before, after, c)
  {
    var used, kept, added := MatchRules(before, after);
    var removed := Unmatched(before, used);
    var changed := removed + added;
    var touched := Touched(set x: RuleChange | x in changed && x.before.Some? :: x.index,
                           set x: RuleChange | x in changed && x.after.Some? :: x.index);
    c := Changes(changed, kept, touched, exists d | d in DuplicateFlags(before) :: d, []);
    Combine(before, after, used, kept, removed, added, touched);
    EachAtItsIndex(before, after, removed, added);
    ApproximateIsDuplicate(before);
  }

  lemma EachAtItsIndex(before: Rules, after: Rules, removed: seq<RuleChange>, added: seq<RuleChange>)
    requires Removals(before, removed, |before|) && Additions(after, added, |after|)
    ensures forall x | x in removed + added :: InPlace(before, after, x)
  {
    forall x | x in removed + added ensures InPlace(before, after, x) {
      if x in removed {
        var i :| 0 <= i < |removed| && removed[i] == x;
      } else {
        var i :| 0 <= i < |added| && added[i] == x;
      }
    }
  }

  lemma Combine(before: Rules, after: Rules, used: seq<bool>, kept: nat, removed: seq<RuleChange>, added: seq<RuleChange>, touched: Touched)
    requires Matched(before, after, |after|, used, kept, added)
    requires Left(before, used, |before|, removed)
    requires touched.before == set x | x in removed + added && x.before.Some? :: x.index
    requires touched.after == set x | x in removed + added && x.after.Some? :: x.index
    ensures var b, a := multiset(before), multiset(after);
            && kept == |b * a|
            && BeforeValues(removed + added) == b - a && AfterValues(removed + added) == a - b
            && |touched.before| == |before| - kept && |touched.after| == |after| - kept
  {
    var b, a, rest := multiset(before), multiset(after), Flagged(before, used, false, |before|);
    assert after[..|after|] == after && before[..|before|] == before;
    FlaggedSplit(before, used, |before|);
    RestIsDifference(b, a, rest);
    ValuesConcat(removed, added);
    IndexSets(removed, added, touched);
    assert |b| == |before|;
  }

  lemma RestIsDifference(b: multiset<Value>, a: multiset<Value>, rest: multiset<Value>)
    requires b * a + rest == b
    ensures rest == b - a && |b| == |b * a| + |rest|
  {
    forall v ensures rest[v] == (b - a)[v] { assert (b * a)[v] == Min(b[v], a[v]) && (b * a + rest)[v] == b[v]; }
  }

  lemma ApproximateIsDuplicate(before: Rules)
    ensures (exists d | d in DuplicateFlags(before) :: d) <==> exists i, j | 0 <= i < j < |before| :: before[i] == before[j]
  {
    var flags := DuplicateFlags(before);
    if i, j :| 0 <= i < j < |before| && before[i] == before[j] {
      assert flags[i] in flags;
    }
    if d :| d in flags && d {
      var i :| 0 <= i < |flags| && flags[i];
      var j :| 0 <= j < |before| && j != i && before[j] == before[i];
    }
  }

  lemma {:induction false} AllUnused(before: Rules, used: seq<bool>, n: nat)
    requires |used| == |before| && n <= |before| && forall i | 0 <= i < |used| :: !used[i]
    ensures Flagged(before, used, true, n) == multiset{}
  {
    if n > 0 { AllUnused(before, used, n - 1); }
  }

  lemma MatchFound(before: Rules, used: seq<bool>, rule: Value, found: Option<nat>)
    requires |used| == |before|
    requires found.Some? ==> found.value < |before| && !used[found.value] && before[found.value] == rule
    requires found.None? ==> forall i | 0 <= i < |before| && before[i] == rule :: used[i]
    ensures found.Some? <==> Flagged(before, used, true, |before|)[rule] < multiset(before)[rule]
  {
    FlaggedSplit(before, used, |before|);
    assert before[..|before|] == before;
    if found.Some? {
      UnusedCounts(before, used, found.value, |before|);
    } else {
      NoneUnused(before, used, rule, |before|);
    }
  }

  /** Increasing indices are as many as the changes. */
  lemma {:induction false} IndexCount(cs: seq<RuleChange>)
    requires forall i, j | 0 <= i < j < |cs| :: cs[i].index < cs[j].index
    ensures |set x | x in cs :: x.index| == |cs|
    decreases |cs|
  {
    if cs != [] {
      var rest, last := cs[..|cs| - 1], cs[|cs| - 1];
      IndexCount(rest);
      assert cs == rest + [last];
      assert (set x | x in cs :: x.index) == (set x | x in rest :: x.index) + {last.index};
      assert last.index !in (set x | x in rest :: x.index);
    }
  }

  lemma IndexSets(removed: seq<RuleChange>, added: seq<RuleChange>, touched: Touched)
    requires forall i | 0 <= i < |removed| :: removed[i].before.Some? && removed[i].after.None?
    requires forall i | 0 <= i < |added| :: added[i].before.None? && added[i].after.Some?
    requires forall i, j | 0 <= i < j < |removed| :: removed[i].index < removed[j].index
    requires forall i, j | 0 <= i < j < |added| :: added[i].index < added[j].index
    requires touched.before == set x | x in removed + added && x.before.Some? :: x.index
    requires touched.after == set x | x in removed + added && x.after.Some? :: x.index
    ensures |touched.before| == |removed| && |touched.after| == |added|
  {
    IndexCount(removed);
    IndexCount(added);
    assert touched.before == set x | x in removed :: x.index;
    assert touched.after == set x | x in added :: x.index;
  }

  /** No changes are reported exactly when the documents' rules are permutations of each other. */
  lemma NoChangesIffPermutation(before: Rules, after: Rules, c: Changes)
    requires ContentSummary(before, after, c)
    ensures c.changed == [] <==> multiset(before) == multiset(after)
  {
    if c.changed == [] {
      assert multiset(before) - multiset(after) == multiset{} == multiset(after) - multiset(before);
      forall v ensures multiset(before)[v] == multiset(after)[v] {
        assert (multiset(before) - multiset(after))[v] == 0 && (multiset(after) - multiset(before))[v] == 0;
      }
    } else {
      var x := c.changed[|c.changed| - 1];
      assert x in c.changed;
      assert BeforeValues(c.changed) != multiset{} || AfterValues(c.changed) != multiset{} by {
        assert x.before.Some? ==> x.before.value in BeforeValues(c.changed);
        assert x.after.Some? ==> x.after.value in AfterValues(c.changed);
      }
    }
  }

  /****** by exact indices ******/

  /** A set of indices in increasing order. */
  function Ascending(s: set<nat>, n: nat): seq<nat> {
    if n == 0 then [] else Ascending(s, n - 1) + (if n - 1 in s then [n - 1] else [])
  }

  datatype Side = Both | BeforeOnly | AfterOnly

  function ChangeAt(before: Rules, after: Rules, side: Side, i: nat): seq<RuleChange> {
    match side
    case Both => if At(before, i) != At(after, i) then [RuleChange(i, At(before, i), At(after, i))] else []
    case BeforeOnly => [RuleChange(i, At(before, i), None)]
    case AfterOnly => [RuleChange(i, None, At(after, i))]
  }

  function ChangesAt(before: Rules, after: Rules, side: Side, indices: seq<nat>): seq<RuleChange> {
    if indices == [] then []
    else ChangesAt(before, after, side, indices[..|indices| - 1]) + ChangeAt(before, after, side, indices[|indices| - 1])
  }

  /** The exact summary: changed pairs, then removals, then additions, each in index order. */
  function TouchedSummary(before: Rules, after: Rules, t: Touched): Changes {
    var n := Max(|before|, |after|);
    var pairs := ChangesAt(before, after, Both, Ascending(t.before * t.after, n));
    Changes(
      pairs + ChangesAt(before, after, BeforeOnly, Ascending(t.before - t.after, n))
            + ChangesAt(before, after, AfterOnly, Ascending(t.after - t.before, n)),
      Max(Min(|before|, |after|) - |pairs|, 0), t, false, [])
  }

  /** The loops over the touched index sets. */
  method TouchedChanges(before: Rules, after: Rules, t: Touched) returns (c: Changes)
    ensures c == TouchedSummary(before, after, t)
  {
    var n := Max(|before|, |after|);
    var pairs := PushChanges(before, after, Both, Ascending(t.before * t.after, n));
    var gone := PushChanges(before, after, BeforeOnly, Ascending(t.before - t.after, n));
    var come := PushChanges(before, after, AfterOnly, Ascending(t.after - t.before, n));
    c := Changes(pairs + gone + come, Max(Min(|before|, |after|) - |pairs|, 0), t, false, []);
  }

  method PushChanges(before: Rules, after: Rules, side: Side, indices: seq<nat>) returns (out: seq<RuleChange>)
    ensures out == ChangesAt(before, after, side, indices)
  {
    out := [];
    for k := 0 to |indices|
      invariant out == ChangesAt(before, after, side, indices[..k])
    {
      assert indices[..k + 1][..k] == indices[..k];
      out := out + ChangeAt(before, after, side, indices[k]);
    }
    assert indices[..|indices|] == indices;
  }

  lemma {:induction false} AscendingEmpty(s: set<nat>, n: nat)
    requires forall i | i in s :: i >= n
    ensures Ascending(s, n) == []
  {
    if n > 0 { AscendingEmpty(s, n - 1); }
  }

  lemma {:induction false} AscendingOne(i: nat, n: nat)
    requires i < n
    ensures Ascending({i}, n) == [i]
  {
    if i == n - 1 { AscendingEmpty({i}, n - 1); } else { AscendingOne(i, n - 1); }
  }

  /** The two summaries count the same and name the same rules. */
  ghost predicate Agree(exact: Changes, content: Changes) {
    && exact.kept == content.kept
    && BeforeValues(exact.changed) == BeforeValues(content.changed)
    && AfterValues(exact.changed) == AfterValues(content.changed)
  }

  lemma ValuesOfOne(x: RuleChange)
    ensures BeforeValues([x]) == (if x.before.Some? then multiset{x.before.value} else multiset{})
    ensures AfterValues([x]) == (if x.after.Some? then multiset{x.after.value} else multiset{})
  {
    assert [x][..0] == [];
  }

  lemma OneChange(before: Rules, after: Rules, side: Side, i: nat)
    ensures ChangesAt(before, after, side, [i]) == ChangeAt(before, after, side, i)
    ensures ChangesAt(before, after, side, []) == []
  {
    assert [i][..0] == [];
  }

  lemma InsertSummary(before: Rules, index: nat, rule: Value)
    requires index <= |before|
    ensures var t := TouchedSummary(before, InsertRule(before, index, rule), Touched({}, {index}));
            t.changed == [RuleChange(index, None, Some(rule))] && t.kept == |before|
  {
    var after := InsertRule(before, index, rule);
    assert {} * {index} == {} && {} - {index} == {} && {index} - {} == {index};
    AscendingEmpty({}, |after|);
    AscendingOne(index, |after|);
    OneChange(before, after, AfterOnly, index);
  }

  lemma GrownMultiset(b: multiset<Value>, v: Value)
    ensures b * (b + multiset{v}) == b && b - (b + multiset{v}) == multiset{} && (b + multiset{v}) - b == multiset{v}
  {
  }

  lemma InsertSummariesAgree(before: Rules, index: nat, rule: Value, content: Changes)
    requires index <= |before|
    requires CountsByContent(before, InsertRule(before, index, rule), content)
    ensures Agree(TouchedSummary(before, InsertRule(before, index, rule), Touched({}, {index})), content)
  {
    InsertCounts(before, index, rule);
    GrownMultiset(multiset(before), rule);
    InsertSummary(before, index, rule);
    ValuesOfOne(RuleChange(index, None, Some(rule)));
    assert |multiset(before)| == |before|;
  }

  lemma EditSummary(before: Rules, index: nat, rule: Value)
    requires index < |before|
    ensures var t := TouchedSummary(before, before[index := rule], Touched({index}, {index}));
            && t.changed == (if before[index] == rule then [] else [RuleChange(index, Some(before[index]), Some(rule))])
            && t.kept == (if before[index] == rule then |before| else |before| - 1)
  {
    var after := before[index := rule];
    assert {index} * {index} == {index} && {index} - {index} == {};
    AscendingEmpty({}, |after|);
    AscendingOne(index, |after|);
    OneChange(before, after, Both, index);
  }

  lemma SwappedMultiset(common: multiset<Value>, was: Value, now: Value)
    requires was != now
    ensures (common + multiset{was}) * (common + multiset{now}) == common
    ensures (common + multiset{was}) - (common + multiset{now}) == multiset{was}
  {
    var a, b := common + multiset{was}, common + multiset{now};
    forall v ensures (a * b)[v] == common[v] { assert (a * b)[v] == Min(a[v], b[v]); }
  }

  lemma SwappedCounts(common: multiset<Value>, was: Value, now: Value, b: multiset<Value>, a: multiset<Value>)
    requires was != now && b == common + multiset{was} && a == common + multiset{now}
    ensures |b * a| == |b| - 1 && b - a == multiset{was} && a - b == multiset{now}
  {
    SwappedMultiset(common, was, now);
    SwappedMultiset(common, now, was);
  }

  lemma EditCounts(before: Rules, index: nat, rule: Value)
    requires index < |before|
    ensures multiset(before[index := rule]) == multiset(RemoveRule(before, index)) + multiset{rule}
  {
    assert before[index := rule] == InsertRule(RemoveRule(before, index), index, rule);
    InsertCounts(RemoveRule(before, index), index, rule);
  }

  lemma RealEditCounts(before: Rules, index: nat, rule: Value)
    requires index < |before| && before[index] != rule
    ensures var b, a := multiset(before), multiset(before[index := rule]);
            |b * a| == |before| - 1 && b - a == multiset{before[index]} && a - b == multiset{rule}
  {
    RemoveCounts(before, index);
    EditCounts(before, index, rule);
    SwappedCounts(multiset(RemoveRule(before, index)), before[index], rule, multiset(before), multiset(before[index := rule]));
  }

  lemma EditSummariesAgree(before: Rules, index: nat, rule: Value, content: Changes)
    requires index < |before|
    requires CountsByContent(before, before[index := rule], content)
    ensures Agree(TouchedSummary(before, before[index := rule], Touched({index}, {index})), content)
  {
    EditSummary(before, index, rule);
    if before[index] == rule {
      assert before[index := rule] == before;
      assert multiset(before) * multiset(before) == multiset(before);
      assert |multiset(before)| == |before|;
    } else {
      RealEditCounts(before, index, rule);
      ValuesOfOne(RuleChange(index, Some(before[index]), Some(rule)));
    }
  }

  lemma {:induction false} TakenFrom(rs: Rules, gone: set<nat>, i: nat, n: nat)
    requires i <= n < |rs|
    ensures multiset(Taken(rs, gone, n)) == (if n in gone then multiset{rs[n]} else multiset{}) + multiset(Taken(rs, gone, n + 1))
  {
  }

  lemma Shift(x: multiset<Value>, y: multiset<Value>, z: multiset<Value>)
    ensures x + (y + z) == (x + y) + z
  {
  }

  /** The removals at indices below n. */
  ghost function RemovedBelow(before: Rules, gone: set<nat>, n: nat): seq<RuleChange> {
    ChangesAt(before, [], BeforeOnly, Ascending(gone, n))
  }

  lemma RemovedOne(before: Rules, gone: set<nat>, n: nat)
    requires n < |before|
    ensures RemovedBelow(before, gone, n + 1)
         == RemovedBelow(before, gone, n) + (if n in gone then [RuleChange(n, Some(before[n]), None)] else [])
  {
    var idx := Ascending(gone, n);
    assert idx + [] == idx && (idx + [n])[..|idx + [n]| - 1] == idx;
    assert RemovedBelow(before, gone, n) + [] == RemovedBelow(before, gone, n);
  }

  lemma RemovedStep(before: Rules, gone: set<nat>, n: nat)
    requires n < |before|
    ensures AfterValues(RemovedBelow(before, gone, n + 1)) == AfterValues(RemovedBelow(before, gone, n))
    ensures BeforeValues(RemovedBelow(before, gone, n + 1))
         == BeforeValues(RemovedBelow(before, gone, n)) + (if n in gone then multiset{before[n]} else multiset{})
  {
    RemovedOne(before, gone, n);
    var cs := RemovedBelow(before, gone, n);
    Push(cs, RuleChange(n, Some(before[n]), None));
    assert cs + [] == cs;
  }

  /** Removals so far, and removals to come. */
  ghost function Balance(before: Rules, gone: set<nat>, n: nat): multiset<Value>
    requires n <= |before|
  {
    BeforeValues(RemovedBelow(before, gone, n)) + multiset(Taken(before, gone, n))
  }

  lemma BalanceStep(before: Rules, gone: set<nat>, n: nat)
    requires n < |before|
    ensures Balance(before, gone, n) == Balance(before, gone, n + 1)
  {
    TakenFrom(before, gone, 0, n);
    RemovedStep(before, gone, n);
    Shift(BeforeValues(RemovedBelow(before, gone, n)), if n in gone then multiset{before[n]} else multiset{},
          multiset(Taken(before, gone, n + 1)));
  }

  lemma {:induction false} BalanceStays(before: Rules, gone: set<nat>, n: nat)
    requires n <= |before|
    ensures Balance(before, gone, n) == multiset(Taken(before, gone, 0))
    decreases n
  {
    if n == 0 {
      assert RemovedBelow(before, gone, 0) == [];
    } else {
      BalanceStays(before, gone, n - 1);
      BalanceStep(before, gone, n - 1);
    }
  }

  lemma {:induction false} NoAfterValues(before: Rules, gone: set<nat>, n: nat)
    requires n <= |before|
    ensures AfterValues(RemovedBelow(before, gone, n)) == multiset{}
    decreases n
  {
    if n > 0 {
      NoAfterValues(before, gone, n - 1);
      RemovedStep(before, gone, n - 1);
    }
  }

  lemma RemovedValues(before: Rules, gone: set<nat>)
    ensures BeforeValues(RemovedBelow(before, gone, |before|)) == multiset(Taken(before, gone, 0))
    ensures AfterValues(RemovedBelow(before, gone, |before|)) == multiset{}
  {
    BalanceStays(before, gone, |before|);
    NoAfterValues(before, gone, |before|);
    assert Taken(before, gone, |before|) == [];
  }

  lemma {:induction false} BeforeOnlyIgnoresAfter(before: Rules, after: Rules, indices: seq<nat>)
    ensures ChangesAt(before, after, BeforeOnly, indices) == ChangesAt(before, [], BeforeOnly, indices)
    decreases |indices|
  {
    if indices != [] { BeforeOnlyIgnoresAfter(before, after, indices[..|indices| - 1]); }
  }

  lemma Alone<T>(s: seq<T>)
    ensures [] + s + [] == s
  {
  }

  lemma RemoveSummary(before: Rules, gone: set<nat>)
    ensures var after := Keep(before, gone, 0);
            var t := TouchedSummary(before, after, Touched(gone, {}));
            |after| <= |before| && t.kept == |after|
            && t.changed == RemovedBelow(before, gone, |before|)
  {
    var after := Keep(before, gone, 0);
    KeepCounts(before, gone, 0);
    assert before[0..] == before;
    assert |multiset(before)| == |before| && |multiset(after)| == |after|;
    assert gone * {} == {} && gone - {} == gone && {} - gone == {};
    AscendingEmpty({}, |before|);
    Alone(ChangesAt(before, after, BeforeOnly, Ascending(gone, |before|)));
    BeforeOnlyIgnoresAfter(before, after, Ascending(gone, |before|));
  }

  lemma PartOfMultiset(a: multiset<Value>, rest: multiset<Value>)
    ensures (a + rest) * a == a && (a + rest) - a == rest && a - (a + rest) == multiset{}
  {
  }

  lemma RemoveSummariesAgree(before: Rules, gone: set<nat>, content: Changes)
    requires CountsByContent(before, Keep(before, gone, 0), content)
    ensures Agree(TouchedSummary(before, Keep(before, gone, 0), Touched(gone, {})), content)
  {
    var after := Keep(before, gone, 0);
    RemoveSummary(before, gone);
    RemovedValues(before, gone);
    KeepCounts(before, gone, 0);
    assert before[0..] == before;
    PartOfMultiset(multiset(after), multiset(Taken(before, gone, 0)));
    assert |multiset(after)| == |after|;
  }

  /** A change that reports no before-value cannot revoke a request. */
  lemma NoBeforeCannotRevoke<Req>(grants: Grants<Req>, before: Rules, after: Rules, c: Changes, req: Req)
    requires ContentSummary(before, after, c) && !HasBefore(c.changed)
    ensures Authorized(grants, before, req) ==> Authorized(grants, after, req)
  {
    NoBeforeNoValues(c.changed);
    forall v ensures multiset(before)[v] <= multiset(after)[v] {
      assert (multiset(before) - multiset(after))[v] == 0;
    }
    MoreRulesGrantMore(grants, before, after, req);
  }
}
