/** JSON pointers: the strings of RFC 6901, and the diff as it is reported under them. */
module JsonPointer {
  import opened Common
  import opened Text
  import opened Json
  import opened JsonDiff

  /** Every `c` replaced. */
  function ReplaceAll(s: string, c: char, subst: string): string {
    if s == "" then "" else (if s[0] == c then subst else [s[0]]) + ReplaceAll(s[1..], c, subst)
  }

  function PointerSegment(key: string): string {
    ReplaceAll(ReplaceAll(key, '~', "~0"), '/', "~1")
  }

  /** Every "~" followed by `digit` replaced. */
  function Undo(s: string, digit: char, c: char): string {
    if s == "" then ""
    else if |s| >= 2 && s[0] == '~' && s[1] == digit then [c] + Undo(s[2..], digit, c)
    else [s[0]] + Undo(s[1..], digit, c)
  }

  /** Section 4 of RFC 6901: first "~1", then "~0". */
  function Unescape(s: string): string {
    Undo(Undo(s, '1', '/'), '0', '~')
  }

  function EscapeChar(c: char): string {
    if c == '~' then "~0" else if c == '/' then "~1" else [c]
  }

  lemma SegmentStep(key: string)
    requires key != ""
    ensures PointerSegment(key) == EscapeChar(key[0]) + PointerSegment(key[1..])
  {
    var rest := ReplaceAll(key[1..], '~', "~0");
    if key[0] == '~' {
      var s := "~0" + rest;
      assert s[1..] == "0" + rest && ("0" + rest)[1..] == rest;
      assert ReplaceAll("0" + rest, '/', "~1") == "0" + ReplaceAll(rest, '/', "~1");
      assert ReplaceAll(s, '/', "~1") == "~" + ReplaceAll("0" + rest, '/', "~1");
    } else {
      var s := [key[0]] + rest;
      assert s[1..] == rest;
      assert ReplaceAll(s, '/', "~1") == EscapeChar(key[0]) + ReplaceAll(rest, '/', "~1");
    }
  }

  lemma UndoStep(c: char, rest: string, digit: char, to: char)
    ensures c != '~' ==> Undo([c] + rest, digit, to) == [c] + Undo(rest, digit, to)
    ensures Undo(['~', digit] + rest, digit, to) == [to] + Undo(rest, digit, to)
    ensures c != digit && c != '~' ==> Undo(['~', c] + rest, digit, to) == ['~', c] + Undo(rest, digit, to)
  {
    assert ([c] + rest)[1..] == rest && (['~', digit] + rest)[2..] == rest;
    assert (['~', c] + rest)[1..] == [c] + rest;
  }

  /** An escaped segment has no slash, and unescapes to the key. */
  lemma {:induction false} SegmentRoundTrip(key: string)
    ensures '/' !in PointerSegment(key)
    ensures Undo(PointerSegment(key), '1', '/') == ReplaceAll(key, '~', "~0")
    ensures Undo(ReplaceAll(key, '~', "~0"), '0', '~') == key
    ensures Unescape(PointerSegment(key)) == key
    decreases |key|
  {
    if key != "" {
      SegmentStep(key);
      SegmentRoundTrip(key[1..]);
      var tail, half := PointerSegment(key[1..]), ReplaceAll(key[1..], '~', "~0");
      UndoStep(key[0], tail, '1', '/');
      UndoStep('0', tail, '1', '/');
      UndoStep(key[0], half, '0', '~');
      assert ReplaceAll(key, '~', "~0") == (if key[0] == '~' then "~0" else [key[0]]) + half;
      assert key == [key[0]] + key[1..];
    }
  }

  function Render(path: seq<string>): string {
    if path == [] then "" else "/" + PointerSegment(path[0]) + Render(path[1..])
  }

  function Split(s: string): (r: seq<string>)
    ensures r != []
  {
    if s == "" then [""]
    else if s[0] == '/' then [""] + Split(s[1..])
    else
      var r := Split(s[1..]);
      [[s[0]] + r[0]] + r[1..]
  }

  function UnescapeAll(ts: seq<string>): (r: seq<string>)
    ensures |r| == |ts| && forall i | 0 <= i < |ts| :: r[i] == Unescape(ts[i])
  {
    seq(|ts|, i requires 0 <= i < |ts| => Unescape(ts[i]))
  }

  /** The reference tokens of a pointer (section 3 of RFC 6901): "" is the whole document. */
  function Parse(pointer: string): seq<string>
  {
    if pointer == "" then [] else UnescapeAll(Split(pointer[1..]))
  }

  lemma {:induction false} SplitAfter(a: string, s: string)
    requires '/' !in a
    ensures Split(a + s) == [a + Split(s)[0]] + Split(s)[1..]
    decreases |a|
  {
    if a == "" {
      assert a + s == s && a + Split(s)[0] == Split(s)[0];
      assert [Split(s)[0]] + Split(s)[1..] == Split(s);
    } else {
      assert (a + s)[1..] == a[1..] + s;
      SplitAfter(a[1..], s);
      assert [a[0]] + (a[1..] + Split(s)[0]) == a + Split(s)[0];
    }
  }

  /** Splitting after one segment: what follows is empty, or starts with a slash. */
  lemma ParseFirst(seg: string, rest: string)
    requires '/' !in seg && (rest == "" || rest[0] == '/')
    ensures Parse("/" + seg + rest) == [Unescape(seg)] + Parse(rest)
  {
    assert ("/" + seg + rest)[1..] == seg + rest;
    var ts := if rest == "" then [] else Split(rest[1..]);
    SplitFirst(seg, rest, ts);
    UnescapeFirst(seg, ts);
  }

  lemma SplitFirst(seg: string, rest: string, ts: seq<string>)
    requires '/' !in seg && (rest == "" || rest[0] == '/')
    requires ts == if rest == "" then [] else Split(rest[1..])
    ensures Split(seg + rest) == [seg] + ts
  {
    SplitAfter(seg, rest);
    assert Split(rest)[0] == "" && Split(rest)[1..] == ts;
    assert seg + "" == seg;
  }

  lemma UnescapeFirst(seg: string, ts: seq<string>)
    ensures UnescapeAll([seg] + ts) == [Unescape(seg)] + UnescapeAll(ts)
  {
  }

  lemma {:induction false} PointerRoundTrip(path: seq<string>)
    ensures Parse(Render(path)) == path
    decreases |path|
  {
    if path != [] {
      SegmentRoundTrip(path[0]);
      ParseFirst(PointerSegment(path[0]), Render(path[1..]));
      PointerRoundTrip(path[1..]);
      assert path == [path[0]] + path[1..];
    }
  }

  /** How one edit found at pointer `at` is reported; a mismatch of the whole documents is "/". */
  function Report(at: string, e: Edit): Change {
    Change(if at == "" && e.path == [] then "/" else at + Render(e.path), e.left, e.right)
  }

  function ReportAll(at: string, es: seq<Edit>): seq<Change>
    decreases |es|
  {
    if es == [] then [] else [Report(at, es[0])] + ReportAll(at, es[1..])
  }

  lemma {:induction false} ReportIndex(at: string, es: seq<Edit>)
    ensures |ReportAll(at, es)| == |es|
    ensures forall i | 0 <= i < |es| :: ReportAll(at, es)[i] == Report(at, es[i])
    decreases |es|
  {
    if es != [] {
      ReportIndex(at, es[1..]);
    }
  }

  lemma {:induction false} ReportConcat(at: string, a: seq<Edit>, b: seq<Edit>)
    ensures ReportAll(at, a + b) == ReportAll(at, a) + ReportAll(at, b)
    decreases |a|
  {
    if a == [] {
      assert a + b == b;
    } else {
      assert (a + b)[1..] == a[1..] + b;
      ReportConcat(at, a[1..], b);
    }
  }

  lemma Join(a: string, b: string, c: string, d: string)
    ensures a + b + c + d == a + (b + c + d)
  {
  }

  lemma ReportOneUnder(at: string, t: string, e: Edit)
    ensures Report(at + "/" + PointerSegment(t), e) == Report(at, e.(path := [t] + e.path))
  {
    assert ([t] + e.path)[1..] == e.path;
    Join(at, "/", PointerSegment(t), Render(e.path));
  }

  lemma ReportUnder(at: string, t: string, es: seq<Edit>)
    ensures ReportAll(at + "/" + PointerSegment(t), es) == ReportAll(at, Under(t, es))
  {
    var here := at + "/" + PointerSegment(t);
    ReportIndex(here, es);
    ReportIndex(at, Under(t, es));
    forall i | 0 <= i < |es| ensures ReportAll(here, es)[i] == ReportAll(at, Under(t, es))[i] {
      ReportOneUnder(at, t, es[i]);
    }
  }

  /** An array index needs no escaping, so both loops address members alike. */
  lemma {:induction false} DigitsNeedNoEscape(s: string)
    requires AllDigits(s)
    ensures PointerSegment(s) == s
    decreases |s|
  {
    if s != "" {
      SegmentStep(s);
      DigitsNeedNoEscape(s[1..]);
    }
  }

  /** The comparison itself, pushing onto one list of changes. */
  class Differ {
    var out: seq<Change>

    constructor ()
      ensures out == []
    {
      out := [];
    }

    method Walk(at: string, l: Value, r: Value)
      modifies this
      ensures out == old(out) + ReportAll(at, Diff(l, r))
      decreases l, 2
    {
      if l == r {
        return;
      }
      if l.Object? && r.Object? {
        var keys := Sort(l.fields.Keys + r.fields.Keys);
        WalkMembers(at, l, r, keys);
      } else if l.Array? && r.Array? {
        WalkMembers(at, l, r, Indices(0, Max(|l.items|, |r.items|)));
      } else {
        out := out + [Change(if at == "" then "/" else at, Some(l), Some(r))];
        assert at + Render([]) == at;
      }
    }

    /** The two loops: over the sorted keys of both objects, or the indices of the longer array. */
    method WalkMembers(at: string, l: Value, r: Value, tokens: seq<string>)
      requires SameContainer(l, r)
      modifies this
      ensures out == old(out) + ReportAll(at, DiffAt(l, r, tokens))
      decreases l, 1
    {
      var i := 0;
      ghost var base := out;
      assert base == base + [];
      while i < |tokens|
        invariant 0 <= i <= |tokens|
        invariant out == base + Part(at, l, r, tokens, i)
      {
        Member(at, l, r, tokens[i]);
        PartStep(base, at, l, r, tokens, i);
        i := i + 1;
      }
      PartOfAll(at, l, r, tokens);
    }

    method Member(at: string, l: Value, r: Value, token: string)
      modifies this
      ensures out == old(out) + ReportAll(at, DiffOne(l, r, token))
      decreases l, 0
    {
      var here := at + "/" + PointerSegment(token);
      var x, y := Child(l, token), Child(r, token);
      if x.Some? && y.Some? {
        Walk(here, x.value, y.value);
        ReportUnder(at, token, Diff(x.value, y.value));
      } else {
        out := out + [Change(here, x, y)];
        assert [token][1..] == [] && Render([]) == "";
        assert Render([token]) == "/" + PointerSegment(token);
        assert at + ("/" + PointerSegment(token)) == here;
      }
    }
  }

  /** What the first n tokens report. */
  ghost function Part(at: string, l: Value, r: Value, tokens: seq<string>, n: nat): seq<Change>
    requires n <= |tokens|
    decreases n
  {
    if n == 0 then [] else Part(at, l, r, tokens, n - 1) + ReportAll(at, DiffOne(l, r, tokens[n - 1]))
  }

  lemma Assoc<T>(a: seq<T>, b: seq<T>, c: seq<T>)
    ensures a + (b + c) == (a + b) + c
  {
  }

  lemma PartStep(base: seq<Change>, at: string, l: Value, r: Value, tokens: seq<string>, i: nat)
    requires i < |tokens|
    ensures base + Part(at, l, r, tokens, i) + ReportAll(at, DiffOne(l, r, tokens[i])) == base + Part(at, l, r, tokens, i + 1)
  {
    Assoc(base, Part(at, l, r, tokens, i), ReportAll(at, DiffOne(l, r, tokens[i])));
  }

  lemma {:induction false} PartIsWhole(at: string, l: Value, r: Value, tokens: seq<string>, n: nat)
    requires n <= |tokens|
    ensures Part(at, l, r, tokens, n) + ReportAll(at, DiffAt(l, r, tokens[n..])) == ReportAll(at, DiffAt(l, r, tokens))
    decreases n
  {
    if n == 0 {
      assert tokens[0..] == tokens;
    } else {
      PartIsWhole(at, l, r, tokens, n - 1);
      var one, more := DiffOne(l, r, tokens[n - 1]), DiffAt(l, r, tokens[n..]);
      DiffAtStep(l, r, tokens, n - 1);
      ReportConcat(at, one, more);
      Assoc(Part(at, l, r, tokens, n - 1), ReportAll(at, one), ReportAll(at, more));
    }
  }

  lemma PartOfAll(at: string, l: Value, r: Value, tokens: seq<string>)
    ensures Part(at, l, r, tokens, |tokens|) == ReportAll(at, DiffAt(l, r, tokens))
  {
    PartIsWhole(at, l, r, tokens, |tokens|);
    assert tokens[|tokens|..] == [];
  }

  method Changes(l: Value, r: Value) returns (out: seq<Change>)
    ensures out == ReportAll("", Diff(l, r))
  {
    var differ := new Differ();
    differ.Walk("", l, r);
    out := differ.out;
  }

  /****** what the reported list means ******/

  ghost function Reported(l: Value, r: Value): seq<Change> { ReportAll("", Diff(l, r)) }

  /** The one list that is a mismatch of the whole documents. */
  predicate IsWhole(l: Value, cs: seq<Change>) {
    |cs| == 1 && cs[0].path == "/" && cs[0].left == Some(l) && cs[0].right.Some?
  }

  function ReplayEach(v: Value, cs: seq<Change>): Value
    decreases |cs|
  {
    if cs == [] then v else ReplayEach(Put(v, Parse(cs[0].path), cs[0].right), cs[1..])
  }

  /** Applies a reported list to the left document. */
  function ReplayReported(l: Value, cs: seq<Change>): Value {
    if IsWhole(l, cs) then cs[0].right.value else ReplayEach(l, cs)
  }

  lemma {:induction false} ReplayEachIsReplay(v: Value, es: seq<Edit>)
    requires forall e | e in es :: e.path != []
    ensures ReplayEach(v, ReportAll("", es)) == Replay(v, es)
    decreases |es|
  {
    if es != [] {
      var e := es[0];
      assert e in es;
      PointerRoundTrip(e.path);
      assert "" + Render(e.path) == Render(e.path);
      ReplayEachIsReplay(Put(v, e.path, e.right), es[1..]);
    }
  }

  lemma PathsBelowRoot(l: Value, r: Value)
    requires SameContainer(l, r)
    ensures forall e | e in Diff(l, r) :: e.path != []
  {
    if l != r {
      forall t | t in Tokens(l, r) ensures Child(l, t).Some? || Child(r, t).Some? { TokensMeetAMember(l, r, t); }
      DiffAtFaithful(l, r, Tokens(l, r));
    }
  }

  /** The reported list is a complete patch, empty exactly for equal values. */
  lemma ReportedIsPatch(l: Value, r: Value)
    ensures ReplayReported(l, Reported(l, r)) == r
    ensures Reported(l, r) == [] <==> l == r
  {
    var cs := Reported(l, r);
    EmptyIffEqual(l, r);
    DiffIsPatch(l, r);
    if l == r {
      assert cs == [];
    } else if SameContainer(l, r) {
      PathsBelowRoot(l, r);
      ReplayEachIsReplay(l, Diff(l, r));
      DiffFaithful(l, r);
      if IsWhole(l, cs) {
        // a member reported as the whole document would be a part of itself
        var e := Diff(l, r)[0];
        ReportIndex("", Diff(l, r));
        assert Faithful(l, r, e);
        ResolveIsSmaller(l, e.path);
        assert false;
      }
    } else {
      assert Diff(l, r) == [Edit([], Some(l), Some(r))];
      ReportIndex("", Diff(l, r));
    }
  }

  lemma {:induction false} ResolveIsSmaller(v: Value, path: seq<string>)
    ensures Resolve(v, path).Some? && path != [] ==> Resolve(v, path).value < v
    decreases |path|
  {
    if path != [] && Child(v, path[0]).Some? {
      ResolveIsSmaller(Child(v, path[0]).value, path[1..]);
    }
  }

  /** Comparing the other way round reports the same places in the same order, sides swapped. */
  lemma ReportedSwaps(l: Value, r: Value)
    ensures var a, b := Reported(l, r), Reported(r, l);
            |a| == |b| && forall i | 0 <= i < |a| :: b[i] == Change(a[i].path, a[i].right, a[i].left)
  {
    DiffSwaps(l, r);
    ReportIndex("", Diff(l, r));
    ReportIndex("", Diff(r, l));
  }

  /** Pointers other than the root mismatch are distinct and resolve to the reported sides. */
  lemma ReportedIsFaithful(l: Value, r: Value)
    requires SameContainer(l, r)
    ensures var cs := Reported(l, r);
            && (forall i, j | 0 <= i < j < |cs| :: cs[i].path != cs[j].path)
            && (forall i | 0 <= i < |cs| ::
                  && Resolve(l, Parse(cs[i].path)) == cs[i].left
                  && Resolve(r, Parse(cs[i].path)) == cs[i].right)
  {
    var es, cs := Diff(l, r), Reported(l, r);
    PathsBelowRoot(l, r);
    DiffFaithful(l, r);
    DiffDistinct(l, r);
    ReportIndex("", es);
    forall i | 0 <= i < |cs| ensures cs[i].path == Render(es[i].path) && Parse(cs[i].path) == es[i].path {
      assert es[i] in es;
      assert "" + Render(es[i].path) == Render(es[i].path);
      PointerRoundTrip(es[i].path);
    }
    forall i | 0 <= i < |cs| ensures Resolve(l, Parse(cs[i].path)) == cs[i].left && Resolve(r, Parse(cs[i].path)) == cs[i].right {
      assert Faithful(l, r, es[i]);
    }
    forall i, j | 0 <= i < j < |cs| ensures cs[i].path != cs[j].path {
      assert es[i].path != es[j].path;
    }
  }

  /** Every reported pointer leads, in each document, to the side reported for it. */
  ghost predicate Resolves(l: Value, r: Value, cs: seq<Change>) {
    forall i | 0 <= i < |cs| :: Resolve(l, Parse(cs[i].path)) == cs[i].left && Resolve(r, Parse(cs[i].path)) == cs[i].right
  }

  /** Pointers resolve exactly unless the documents themselves, not parts of them, are the mismatch. */
  lemma ResolvesIffBelowRoot(l: Value, r: Value)
    ensures Resolves(l, r, Reported(l, r)) <==> l == r || SameContainer(l, r)
  {
    if l == r {
      assert Reported(l, r) == [];
    } else if SameContainer(l, r) {
      ReportedIsFaithful(l, r);
    } else {
      RootReport(l, r);
      assert Reported(l, r)[0].path == "/" && Reported(l, r)[0].left == Some(l);
      assert Parse("/") == UnescapeAll(Split("")) && |Parse("/")| == 1;
      ResolveIsSmaller(l, Parse("/"));
    }
  }

  lemma RootReport(l: Value, r: Value)
    requires l != r && !SameContainer(l, r)
    ensures Reported(l, r) == [Change("/", Some(l), Some(r))]
  {
    assert Diff(l, r) == [Edit([], Some(l), Some(r))];
    ReportIndex("", Diff(l, r));
  }

  /** And every such mismatch reads as one at the empty key of two objects. */
  lemma RootReportsAreAmbiguous(a: Value, b: Value)
    requires a != b && !SameContainer(a, b)
    ensures Reported(Object(map["" := a]), Object(map["" := b])) == Reported(a, b)
  {
    var l, r := Object(map["" := a]), Object(map["" := b]);
    assert l.fields[""] == a && r.fields[""] == b;
    RootReport(a, b);
    var ts := Tokens(l, r);
    SortedIsUnique(ts, [""]);
    OneMember(l, r);
    assert Diff(l, r) == [Edit([""], Some(a), Some(b))];
    ReportIndex("", Diff(l, r));
    assert [""][1..] == [] && PointerSegment("") == "" && Render([]) == "";
    assert Render([""]) == "/" && "" + "/" == "/";
  }

  lemma OneMember(l: Value, r: Value)
    requires l.Object? && r.Object? && l.fields.Keys == {""} == r.fields.Keys && Tokens(l, r) == [""]
    requires l.fields[""] != r.fields[""] && !SameContainer(l.fields[""], r.fields[""])
    ensures Diff(l, r) == [Edit([""], Some(l.fields[""]), Some(r.fields[""]))]
  {
    var a, b := l.fields[""], r.fields[""];
    assert Diff(a, b) == [Edit([], Some(a), Some(b))];
    assert [""] + [] == [""];
    assert Under("", Diff(a, b)) == [Edit([""], Some(a), Some(b))];
    assert [""][1..] == [];
    assert DiffAt(l, r, [""]) == DiffOne(l, r, "") + DiffAt(l, r, []);
  }

  /**
   The printed path alone does not tell a mismatch of the whole documents from one at the empty
   key: both read "/".  The reported left side does (`ReportedIsPatch`).
   */
  lemma RootPathIsAmbiguous()
    ensures var a, b := Number("1"), String("1");
            && Reported(a, b) == [Change("/", Some(a), Some(b))]
            && Reported(Object(map["" := a]), Object(map["" := b])) == [Change("/", Some(a), Some(b))]
            && Resolve(a, Parse("/")).None?
  {
    var a, b := Number("1"), String("1");
    var l, r := Object(map["" := a]), Object(map["" := b]);
    assert l.fields[""] != r.fields[""];
    var ts := Tokens(l, r);
    SortedIsUnique(ts, [""]);
    assert Diff(a, b) == [Edit([], Some(a), Some(b))];
    assert DiffOne(l, r, "") == Under("", Diff(a, b));
    assert DiffAt(l, r, [""]) == DiffOne(l, r, "") + DiffAt(l, r, [""][1..]);
    assert Under("", Diff(a, b))[0].path == [""];
    assert PointerSegment("") == "";
    assert Render([""]) == "/" + "" + Render([""][1..]) == "/";
    assert "" + Render([""]) == "/";
  }
}
