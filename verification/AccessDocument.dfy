/**
 Amendments of the whole `config/access` document, and the requests a form, a deletion or a
 reorder makes of them.
 */
module AccessDocument {
  import opened Common
  import opened Json
  import opened AccessRules
  import opened AccessChanges
  import opened Canonical

  datatype Error = Shape | IndexRange | SetAndClear | NotAnObject | WrongId | Unconfirmed | Unchanged | Invalid

  datatype RuleSpec = RuleSpec(
    pattern: string, roles: string, methods: string,
    actions: Option<string>, customAuthz: Option<string>, excludePatterns: Option<string>)

  /** An absent value leaves the key alone. */
  datatype RuleEdit = RuleEdit(
    pattern: Option<string>, roles: Option<string>, methods: Option<string>,
    actions: Option<string>, customAuthz: Option<string>, excludePatterns: Option<string>,
    clearActions: bool, clearCustomAuthz: bool, clearExcludePatterns: bool)

  datatype Amendment =
    | Add(rule: RuleSpec)
    | Insert(index: nat, rule: RuleSpec)
    | Edit(index: nat, edit: RuleEdit)
    | Move(from: nat, to: nat)
    | Remove(indices: seq<nat>)
    | Replace(document: Value)          // `apply`: a document edited by hand

  type Fields = map<string, Value>

  function SetField(fields: Fields, key: string, value: Option<string>): Fields {
    if value.Some? then fields[key := String(value.value)] else fields
  }

  function Without(fields: Fields, key: string): Fields { map k | k in fields && k != key :: fields[k] }

  function SetOrClear(fields: Fields, key: string, value: Option<string>, clear: bool): Fields {
    if clear then Without(fields, key) else SetField(fields, key, value)
  }

  function NewRule(spec: RuleSpec): Value {
    var base: Fields := map["pattern" := String(spec.pattern), "roles" := String(spec.roles), "methods" := String(spec.methods)];
    Object(SetField(SetField(SetField(base, "actions", spec.actions), "customAuthz", spec.customAuthz),
                    "excludePatterns", spec.excludePatterns))
  }

  function EditFields(fields: Fields, e: RuleEdit): Fields {
    var f := SetField(SetField(SetField(fields, "pattern", e.pattern), "roles", e.roles), "methods", e.methods);
    SetOrClear(SetOrClear(SetOrClear(f, "actions", e.actions, e.clearActions),
                          "customAuthz", e.customAuthz, e.clearCustomAuthz),
               "excludePatterns", e.excludePatterns, e.clearExcludePatterns)
  }

  predicate SetsAndClears(e: RuleEdit) {
    (e.actions.Some? && e.clearActions) || (e.customAuthz.Some? && e.clearCustomAuthz)
    || (e.excludePatterns.Some? && e.clearExcludePatterns)
  }

  function RulesOf(doc: Value): Option<Rules> {
    var configs := Get(doc, "configs");
    if configs.Some? && configs.value.Array? then Some(configs.value.items) else None
  }

  function RulesOrNone(doc: Value): Rules {
    if RulesOf(doc).Some? then RulesOf(doc).value else []
  }

  function WithRules(doc: Value, rs: Rules): (r: Value)
    requires RulesOf(doc).Some?
    ensures RulesOf(r) == Some(rs)
  {
    Object(doc.fields["configs" := Array(rs)])
  }

  function IndexSet(indices: seq<nat>): set<nat> { set i | i in indices }

  /** The amended rules and the exact indices touched. */
  function AmendRules(rs: Rules, a: Amendment): Result<(Rules, Touched), Error>
    requires !a.Replace?
  {
    match a
    case Add(spec) => Ok((InsertRule(rs, |rs|, NewRule(spec)), Touched({}, {|rs|})))
    case Insert(index, spec) =>
      if index > |rs| then Err(IndexRange)
      else Ok((InsertRule(rs, index, NewRule(spec)), Touched({}, {index})))
    case Edit(index, e) =>
      if index >= |rs| then Err(IndexRange)
      else if SetsAndClears(e) then Err(SetAndClear)
      else if !rs[index].Object? then Err(NotAnObject)
      else Ok((rs[index := Object(EditFields(rs[index].fields, e))], Touched({index}, {index})))
    case Move(from, to) =>
      if from >= |rs| || to >= |rs| then Err(IndexRange)
      else Ok((MoveRule(rs, from, to), Touched({from}, {to})))
    case Remove(indices) =>
      if exists i | i in indices :: i >= |rs| then Err(IndexRange)
      else Ok((Keep(rs, IndexSet(indices), 0), Touched(IndexSet(indices), {})))
  }

  /** `apply` insists on the document's id, and supplies it when absent. */
  function NormalizeId(doc: Value): Result<Value, Error> {
    if !doc.Object? then Ok(doc)
    else if "_id" !in doc.fields then Ok(Object(doc.fields["_id" := String("access")]))
    else if doc.fields["_id"] == String("access") then Ok(doc)
    else Err(WrongId)
  }

  /** The document an amendment makes. */
  function Amend(before: Value, a: Amendment): Result<Value, Error> {
    if a.Replace? then NormalizeId(a.document)
    else if RulesOf(before).None? then Err(Shape)
    else
      match AmendRules(RulesOf(before).value, a)
      case Err(e) => Err(e)
      case Ok((rs, _)) => Ok(WithRules(before, rs))
  }

  datatype Amended = Amended(after: Value, summary: Changes)

  /** Amends and summarizes, by exact indices or, for `apply`, by content. */
  method AmendAndSummarize(before: Value, a: Amendment) returns (r: Result<Amended, Error>)
    ensures r.Err? ==> Amend(before, a) == Err(r.error)
    ensures r.Ok? ==> Amend(before, a) == Ok(r.value.after)
    ensures r.Ok? && a.Replace? ==> ContentSummary(RulesOrNone(before), RulesOrNone(r.value.after), r.value.summary)
    ensures r.Ok? && !a.Replace? ==> r.value.summary == ExactSummary(before, a)
  {
    if a.Replace? {
      var document := NormalizeId(a.document);
      if document.Err? {
        return Err(document.error);
      }
      var summary := MultisetChanges(RulesOrNone(before), RulesOrNone(document.value));
      return Ok(Amended(document.value, summary));
    }
    var rs := RulesOf(before);
    if rs.None? {
      return Err(Shape);
    }
    var amended := AmendRules(rs.value, a);
    if amended.Err? {
      return Err(amended.error);
    }
    var (after, touched) := amended.value;
    if a.Remove? {
      after := RemoveAll(rs.value, IndexSet(a.indices));
    }
    var summary;
    if a.Move? {
      summary := Changes([], |after|, touched, false, if a.from == a.to then [] else [(a.from, a.to)]);
    } else {
      summary := TouchedChanges(rs.value, after, touched);
    }
    r := Ok(Amended(WithRules(before, after), summary));
  }

  function ExactSummary(before: Value, a: Amendment): Changes
    requires !a.Replace? && Amend(before, a).Ok?
  {
    var rs := RulesOf(before).value;
    var (after, touched) := AmendRules(rs, a).value;
    if a.Move? then Changes([], |after|, touched, false, if a.from == a.to then [] else [(a.from, a.to)])
    else TouchedSummary(rs, after, touched)
  }

  lemma MoveSummariesAgree(rs: Rules, from: nat, to: nat, content: Changes)
    requires from < |rs| && to < |rs|
    requires CountsByContent(rs, MoveRule(rs, from, to), content)
    ensures content.kept == |MoveRule(rs, from, to)|
    ensures BeforeValues(content.changed) == multiset{} == AfterValues(content.changed)
  {
    MoveCounts(rs, from, to);
    assert multiset(rs) * multiset(rs) == multiset(rs) && multiset(rs) - multiset(rs) == multiset{};
    assert |multiset(MoveRule(rs, from, to))| == |MoveRule(rs, from, to)|;
  }

  /** For every transform the exact summary and the content-matched one agree, a move included. */
  lemma SummariesAgree(before: Value, a: Amendment, content: Changes)
    requires !a.Replace? && Amend(before, a).Ok?
    requires CountsByContent(RulesOrNone(before), RulesOrNone(Amend(before, a).value), content)
    ensures Agree(ExactSummary(before, a), content)
  {
    var rs := RulesOf(before).value;
    var (after, touched) := AmendRules(rs, a).value;
    assert RulesOrNone(Amend(before, a).value) == after && RulesOrNone(before) == rs;
    if a.Move? {
      MoveSummariesAgree(rs, a.from, a.to, content);
    } else {
      TouchedAgrees(rs, a, content);
    }
  }

  lemma EditMakes(rs: Rules, index: nat, e: RuleEdit)
    requires AmendRules(rs, Edit(index, e)).Ok?
    ensures index < |rs| && rs[index].Object?
    ensures AmendRules(rs, Edit(index, e)).value ==
            (rs[index := Object(EditFields(rs[index].fields, e))], Touched({index}, {index}))
  {
  }

  lemma TouchedAgrees(rs: Rules, a: Amendment, content: Changes)
    requires !a.Replace? && !a.Move? && AmendRules(rs, a).Ok?
    requires CountsByContent(rs, AmendRules(rs, a).value.0, content)
    ensures var (after, touched) := AmendRules(rs, a).value; Agree(TouchedSummary(rs, after, touched), content)
  {
    var (after, touched) := AmendRules(rs, a).value;
    match a
    case Add(spec) => InsertSummariesAgree(rs, |rs|, NewRule(spec), content);
    case Insert(index, spec) => InsertSummariesAgree(rs, index, NewRule(spec), content);
    case Edit(index, e) =>
      EditMakes(rs, index, e);
      EditSummariesAgree(rs, index, Object(EditFields(rs[index].fields, e)), content);
    case Remove(indices) => RemoveSummariesAgree(rs, IndexSet(indices), content);
  }

  /** A transform reported without a before-value cannot revoke a request. */
  lemma ExactSummaryCannotRevoke<Req>(grants: Grants<Req>, before: Value, a: Amendment, req: Req)
    requires !a.Replace? && Amend(before, a).Ok? && !HasBefore(ExactSummary(before, a).changed)
    ensures Authorized(grants, RulesOrNone(before), req) ==> Authorized(grants, RulesOrNone(Amend(before, a).value), req)
  {
    var rs := RulesOf(before).value;
    var (after, _) := AmendRules(rs, a).value;
    match a
    case Add(spec) => InsertAddsItsGrants(grants, rs, |rs|, NewRule(spec), req);
    case Insert(index, spec) => InsertAddsItsGrants(grants, rs, index, NewRule(spec), req);
    case Move(from, to) => MoveAuthorizesTheSame(grants, rs, from, to, req);
    case Edit(index, e) =>
      EditMakes(rs, index, e);
      UnreportedEditIsNone(rs, index, Object(EditFields(rs[index].fields, e)));
    case Remove(indices) => UnreportedRemoveTakesNothing(grants, rs, IndexSet(indices), req);
  }

  lemma UnreportedEditIsNone(rs: Rules, index: nat, rule: Value)
    requires index < |rs|
    requires !HasBefore(TouchedSummary(rs, rs[index := rule], Touched({index}, {index})).changed)
    ensures rs[index := rule] == rs
  {
    EditSummary(rs, index, rule);
    var x := RuleChange(index, Some(rs[index]), Some(rule));
    assert [x][0].before.Some?;
    assert HasBefore([x]);
  }

  lemma UnreportedRemoveTakesNothing<Req>(grants: Grants<Req>, rs: Rules, gone: set<nat>, req: Req)
    requires !HasBefore(TouchedSummary(rs, Keep(rs, gone, 0), Touched(gone, {})).changed)
    ensures Authorized(grants, rs, req) ==> Authorized(grants, Keep(rs, gone, 0), req)
  {
    RemoveSummary(rs, gone);
    NoBeforeNoValues(RemovedBelow(rs, gone, |rs|));
    RemovedValues(rs, gone);
    RemoveTakesItsGrants(grants, rs, gone, req);
    assert |multiset(Taken(rs, gone, 0))| == |Taken(rs, gone, 0)|;
  }

  /****** what an amendment does to the rules ******/

  /** An amendment the rules admit: indices in range, a rule to edit, no key both set and cleared. */
  predicate Applicable(rs: Rules, a: Amendment)
    requires !a.Replace?
  {
    match a
    case Add(_) => true
    case Insert(index, _) => index <= |rs|
    case Edit(index, e) => index < |rs| && rs[index].Object? && !SetsAndClears(e)
    case Move(from, to) => from < |rs| && to < |rs|
    case Remove(indices) => forall i | i in indices :: i < |rs|
  }

  /** The rules it makes, told apart from the list they were. */
  ghost predicate Effect(rs: Rules, a: Amendment, made: Rules)
    requires !a.Replace? && Applicable(rs, a)
  {
    match a
    case Add(spec) => |made| == |rs| + 1 && made[..|rs|] == rs && made[|rs|] == NewRule(spec)
    case Insert(index, spec) => |made| == |rs| + 1 && made[index] == NewRule(spec) && RemoveRule(made, index) == rs
    case Edit(index, _) => |made| == |rs| && made[index].Object? && forall i | 0 <= i < |rs| && i != index :: made[i] == rs[i]
    case Move(from, to) => |made| == |rs| && made[to] == rs[from] && RemoveRule(made, to) == RemoveRule(rs, from)
    case Remove(indices) =>
      forall i | 0 <= i < |rs| && i !in indices ::
        var k := i - Below(IndexSet(indices), i); 0 <= k < |made| == |rs| - |IndexSet(indices)| && made[k] == rs[i]
  }

  /** How many of the indices lie below i. */
  function Below(s: set<nat>, i: nat): nat { |set j | j in s && j < i| }

  /** Which amendments are refused, and that the others make their rules and leave every other key. */
  lemma AmendmentTakesEffect(before: Value, a: Amendment)
    requires !a.Replace?
    ensures var r := Amend(before, a);
            if RulesOf(before).None? then r == Err(Shape)
            else
              var rs := RulesOf(before).value;
              if !Applicable(rs, a) then
                r == Err(if a.Edit? && a.index < |rs| then (if SetsAndClears(a.edit) then SetAndClear else NotAnObject) else IndexRange)
              else
                && r.Ok? && RulesOf(r.value).Some? && Effect(rs, a, RulesOf(r.value).value)
                && forall key | key != "configs" :: Get(r.value, key) == Get(before, key)
  {
    if RulesOf(before).Some? && Applicable(RulesOf(before).value, a) {
      var rs := RulesOf(before).value;
      match a
      case Insert(index, spec) => InsertThenRemove(rs, index, NewRule(spec));
      case Move(from, to) =>
        MoveBack(rs, from, to);
        InsertThenRemove(RemoveRule(rs, from), to, rs[from]);
      case Remove(indices) => KeptRulesShift(rs, IndexSet(indices));
      case _ =>
    }
  }

  lemma KeptRulesShift(rs: Rules, gone: set<nat>)
    requires forall i | i in gone :: i < |rs|
    ensures |Keep(rs, gone, 0)| == |rs| - |gone|
    ensures forall i | 0 <= i < |rs| && i !in gone ::
              var k := i - Below(gone, i); 0 <= k < |rs| - |gone| && Keep(rs, gone, 0)[k] == rs[i]
  {
    KeptFrom(rs, gone, 0);
    assert (set j | j in gone && j < 0) == {};
    assert (set j | j in gone && j < |rs|) == gone;
  }

  lemma BelowStep(gone: set<nat>, i: nat)
    ensures Below(gone, i + 1) == Below(gone, i) + if i in gone then 1 else 0
  {
    var a, b := set j | j in gone && j < i, set j | j in gone && j < i + 1;
    if i in gone {
      assert b == a + {i};
    } else {
      assert b == a;
    }
  }

  lemma {:induction false} KeptFrom(rs: Rules, gone: set<nat>, from: nat)
    requires from <= |rs|
    ensures |Keep(rs, gone, from)| == |rs| - from - (Below(gone, |rs|) - Below(gone, from))
    ensures forall i | from <= i < |rs| && i !in gone ::
              var k := i - from - (Below(gone, i) - Below(gone, from));
              0 <= k < |Keep(rs, gone, from)| && Keep(rs, gone, from)[k] == rs[i]
    decreases |rs| - from
  {
    if from < |rs| {
      BelowStep(gone, from);
      KeptFrom(rs, gone, from + 1);
    }
  }

  /** Outside the indices a summary reports as touched, the rules and their order are the same. */
  lemma UntouchedStay(before: Value, a: Amendment)
    requires !a.Replace? && Amend(before, a).Ok?
    ensures var t, rs, made := ExactSummary(before, a).touched, RulesOrNone(before), RulesOrNone(Amend(before, a).value);
            && (forall i | i in t.before :: i < |rs|) && (forall i | i in t.after :: i < |made|)
            && Keep(rs, t.before, 0) == Keep(made, t.after, 0)
            && (a.Move? ==> t == Touched({a.from}, {a.to}))
  {
    var rs := RulesOf(before).value;
    var made := AmendRules(rs, a).value.0;
    KeepNone(rs, {}, 0);
    match a
    case Add(spec) => InsertedIsTouched(rs, |rs|, NewRule(spec));
    case Insert(index, spec) => InsertedIsTouched(rs, index, NewRule(spec));
    case Edit(index, e) =>
      RemoveIsKeep(rs, index);
      RemoveIsKeep(made, index);
    case Move(from, to) =>
      RemoveIsKeep(rs, from);
      RemoveIsKeep(made, to);
      InsertThenRemove(RemoveRule(rs, from), to, rs[from]);
    case Remove(_) => KeepNone(made, {}, 0);
  }

  lemma InsertedIsTouched(rs: Rules, index: nat, rule: Value)
    requires index <= |rs|
    ensures Keep(rs, {}, 0) == Keep(InsertRule(rs, index, rule), {index}, 0)
  {
    KeepNone(rs, {}, 0);
    RemoveIsKeep(InsertRule(rs, index, rule), index);
    InsertThenRemove(rs, index, rule);
  }

  /** The moves of a summary: none, or one rule by where it was and where it is, and nothing changed. */
  lemma MovesAreReported(before: Value, a: Amendment)
    requires !a.Replace? && Amend(before, a).Ok?
    ensures var c, rs, made := ExactSummary(before, a), RulesOrNone(before), RulesOrNone(Amend(before, a).value);
            && !c.positionsApproximate && |c.moved| <= 1
            && (c.moved != [] <==> a.Move? && a.from != a.to)
            && (forall p | p in c.moved ::
                  p.0 == a.from && p.1 == a.to && p.0 < |rs| && p.1 < |made| && made[p.1] == rs[p.0])
            && (a.Move? ==> c.changed == [] && c.kept == |rs|)
  {
    if a.Move? { MoveBack(RulesOf(before).value, a.from, a.to); }
  }

  /** An edited document is taken with its id, given the id it lacks, or refused for another. */
  lemma ReplaceMeans(before: Value, doc: Value, key: string)
    ensures var r := Amend(before, Replace(doc));
            && (r.Err? <==> Get(doc, "_id").Some? && Get(doc, "_id") != Some(String("access")))
            && (r.Err? ==> r.error == WrongId)
            && (r.Ok? ==>
                  Get(r.value, key) == if doc.Object? && key == "_id" then Some(String("access")) else Get(doc, key))
            && (r.Ok? && !doc.Object? ==> r.value == doc)
  {
  }

  /****** what an edit or a new rule says of each key ******/

  datatype Intent = Leave | Set(text: string) | Clear

  function Asked(value: Option<string>, clear: bool): Intent {
    if value.Some? then Set(value.value) else if clear then Clear else Leave
  }

  function EditIntent(e: RuleEdit, key: string): Intent {
    if key == "pattern" then Asked(e.pattern, false)
    else if key == "roles" then Asked(e.roles, false)
    else if key == "methods" then Asked(e.methods, false)
    else if key == "actions" then Asked(e.actions, e.clearActions)
    else if key == "customAuthz" then Asked(e.customAuthz, e.clearCustomAuthz)
    else if key == "excludePatterns" then Asked(e.excludePatterns, e.clearExcludePatterns)
    else Leave
  }

  function Follows(was: Option<Value>, intent: Intent): Option<Value> {
    match intent
    case Leave => was
    case Set(text) => Some(String(text))
    case Clear => None
  }

  /**
   An edit changes one rule, and in it the keys it sets or clears: those it sets have the given text,
   those it clears are gone, all others are as they were.
   */
  lemma EditChangesOnlyItsKeys(before: Value, index: nat, e: RuleEdit, key: string)
    requires Amend(before, Edit(index, e)).Ok?
    ensures var (rs, made) := (RulesOf(before).value, RulesOrNone(Amend(before, Edit(index, e)).value));
            && |made| == |rs| && (forall i | 0 <= i < |rs| && i != index :: made[i] == rs[i])
            && Get(made[index], key) == Follows(Get(rs[index], key), EditIntent(e, key))
  {
    FieldFollows(RulesOf(before).value[index].fields, e, key);
  }

  function FieldOf(fields: Fields, key: string): Option<Value> {
    if key in fields then Some(fields[key]) else None
  }

  lemma SetFollows(fields: Fields, key: string, value: Option<string>, clear: bool, other: string)
    requires !(value.Some? && clear)
    ensures FieldOf(SetOrClear(fields, key, value, clear), other) ==
            Follows(FieldOf(fields, other), if other == key then Asked(value, clear) else Leave)
    ensures !clear ==> SetOrClear(fields, key, value, clear) == SetField(fields, key, value)
  {
  }

  lemma FieldFollows(fields: Fields, e: RuleEdit, key: string)
    requires !SetsAndClears(e)
    ensures FieldOf(EditFields(fields, e), key) == Follows(FieldOf(fields, key), EditIntent(e, key))
  {
    SetFollows(fields, "pattern", e.pattern, false, key);
    var f1 := SetField(fields, "pattern", e.pattern);
    SetFollows(f1, "roles", e.roles, false, key);
    var f2 := SetField(f1, "roles", e.roles);
    SetFollows(f2, "methods", e.methods, false, key);
    var f3 := SetField(f2, "methods", e.methods);
    SetFollows(f3, "actions", e.actions, e.clearActions, key);
    var f4 := SetOrClear(f3, "actions", e.actions, e.clearActions);
    SetFollows(f4, "customAuthz", e.customAuthz, e.clearCustomAuthz, key);
    var f5 := SetOrClear(f4, "customAuthz", e.customAuthz, e.clearCustomAuthz);
    SetFollows(f5, "excludePatterns", e.excludePatterns, e.clearExcludePatterns, key);
  }

  /** A new rule has its three texts, the optional ones it was given, and no other key. */
  lemma NewRuleSays(spec: RuleSpec, key: string)
    ensures var v := Get(NewRule(spec), key);
            var optional := (text: Option<string>) => if text.Some? then Some(String(text.value)) else None;
            v == if key == "pattern" then Some(String(spec.pattern))
                 else if key == "roles" then Some(String(spec.roles))
                 else if key == "methods" then Some(String(spec.methods))
                 else if key == "actions" then optional(spec.actions)
                 else if key == "customAuthz" then optional(spec.customAuthz)
                 else if key == "excludePatterns" then optional(spec.excludePatterns)
                 else None
  {
    var e := RuleEdit(None, None, None, spec.actions, spec.customAuthz, spec.excludePatterns, false, false, false);
    var base: Fields := map["pattern" := String(spec.pattern), "roles" := String(spec.roles), "methods" := String(spec.methods)];
    FieldFollows(base, e, key);
  }

  /****** requests ******/

  /** A loaded document: its value, and the digest that stands for it. */
  datatype Document = Document(digest: string, value: Value)

  ghost function FromValue(hash: Hash, value: Value): Option<Document> {
    if RulesOf(value).Some? then Some(Document(Digest(hash, value), value)) else None
  }

  datatype Request = Request(
    expectedDigest: string,
    previous: Value,
    amendment: Amendment,
    expectedRule: Option<(nat, string)>,
    after: Value)

  datatype Touch = Keeping | Setting | Clearing

  /** A form's input: what it shows, what it was seeded with, and for an optional key the intent. */
  datatype Field = Field(value: string, seed: string)

  datatype OptionalField = OptionalField(value: string, edit: Touch)

  datatype Kind = Create(at: Option<nat>) | EditRule(index: nat)

  datatype Form = Form(
    document: Document,
    ruleDigest: Option<string>,
    kind: Kind,
    pattern: Field, roles: Field, methods: Field,
    actions: OptionalField, customAuthz: OptionalField, excludePatterns: OptionalField,
    confirming: bool)

  function Changed(f: Field): Option<string> { if f.value != f.seed then Some(f.value) else None }

  function WhenSet(f: OptionalField): Option<string> { if f.edit == Setting then Some(f.value) else None }

  function NonEmpty(s: string): Option<string> { if s != "" then Some(s) else None }

  function FormAmendment(f: Form): Amendment {
    match f.kind
    case Create(at) =>
      var rule := RuleSpec(f.pattern.value, f.roles.value, f.methods.value, NonEmpty(f.actions.value),
                           NonEmpty(f.customAuthz.value), NonEmpty(f.excludePatterns.value));
      if at.Some? then Insert(at.value, rule) else Add(rule)
    case EditRule(index) =>
      Edit(index, RuleEdit(Changed(f.pattern), Changed(f.roles), Changed(f.methods), WhenSet(f.actions),
                           WhenSet(f.customAuthz), WhenSet(f.excludePatterns), f.actions.edit == Clearing,
                           f.customAuthz.edit == Clearing, f.excludePatterns.edit == Clearing))
  }

  function Shown(rule: Value, key: string): string {
    var v := Get(rule, key);
    if v.Some? && v.value.String? then v.value.s else ""
  }

  /** The form opened on a rule of the document, nothing typed yet. */
  ghost function OpenForm(hash: Hash, d: Document, index: nat): Form
    requires RulesOf(d.value).Some? && index < |RulesOf(d.value).value|
  {
    var rule := RulesOf(d.value).value[index];
    var field := (key: string) => Field(Shown(rule, key), Shown(rule, key));
    var optional := (key: string) => OptionalField(Shown(rule, key), Keeping);
    Form(d, Some(Digest(hash, rule)), EditRule(index), field("pattern"), field("roles"), field("methods"),
         optional("actions"), optional("customAuthz"), optional("excludePatterns"), false)
  }

  type Validator = Value -> bool

  function RequestFromForm(valid: Validator, f: Form): Result<Request, Error> {
    if !f.confirming then Err(Unconfirmed)
    else
      var a := FormAmendment(f);
      match Amend(f.document.value, a)
      case Err(e) => Err(e)
      case Ok(after) =>
        if !valid(after) then Err(Invalid)
        else if ExactSummary(f.document.value, a).changed == [] then Err(Unchanged)
        else
          var rule := if f.kind.EditRule? && f.ruleDigest.Some? then Some((f.kind.index, f.ruleDigest.value)) else None;
          Ok(Request(f.document.digest, f.document.value, a, rule, after))
  }

  ghost function RequestFor(hash: Hash, d: Document, a: Amendment, index: nat): Result<Request, Error> {
    match Amend(d.value, a)
    case Err(e) => Err(e)
    case Ok(after) =>
      if index >= |RulesOrNone(d.value)| then Err(IndexRange)
      else Ok(Request(d.digest, d.value, a, Some((index, Digest(hash, RulesOrNone(d.value)[index]))), after))
  }

  ghost function RequestFromDelete(hash: Hash, valid: Validator, d: Document, index: nat, confirmed: bool): Result<Request, Error> {
    if !confirmed then Err(Unconfirmed)
    else
      var r := RequestFor(hash, d, Remove([index]), index);
      if r.Ok? && !valid(r.value.after) then Err(Invalid) else r
  }

  ghost function RequestFromMove(hash: Hash, d: Document, from: nat, to: nat): Result<Request, Error> {
    RequestFor(hash, d, Move(from, to), from)
  }

  /** What every builder leaves in its request: preconditions and result of one document. */
  ghost predicate WellBuilt(hash: Hash, r: Request) {
    && r.expectedDigest == Digest(hash, r.previous)
    && RulesOf(r.previous).Some?
    && Amend(r.previous, r.amendment) == Ok(r.after)
    && (r.expectedRule.Some? ==>
          && r.expectedRule.value.0 < |RulesOrNone(r.previous)|
          && r.expectedRule.value.1 == Digest(hash, RulesOrNone(r.previous)[r.expectedRule.value.0]))
  }

  /** Whatever is typed into a form on a loaded document, its request is well built. */
  lemma FormRequestsAreWellBuilt(hash: Hash, valid: Validator, value: Value, index: nat, f: Form)
    requires FromValue(hash, value) == Some(f.document)
    requires f.kind.EditRule? ==>
               && index == f.kind.index < |RulesOrNone(value)|
               && f.ruleDigest == OpenForm(hash, f.document, index).ruleDigest
    ensures var r := RequestFromForm(valid, f);
            r.Ok? ==> WellBuilt(hash, r.value) && r.value.previous == value && valid(r.value.after)
  {
  }

  lemma OtherRequestsAreWellBuilt(hash: Hash, valid: Validator, value: Value, d: Document, i: nat, j: nat, confirmed: bool)
    requires FromValue(hash, value) == Some(d)
    ensures var r := RequestFromDelete(hash, valid, d, i, confirmed);
            r.Ok? ==> WellBuilt(hash, r.value) && r.value.previous == value && confirmed && valid(r.value.after)
    ensures var r := RequestFromMove(hash, d, i, j);
            r.Ok? ==> WellBuilt(hash, r.value) && r.value.previous == value
  {
  }

  /** What a form's optional key is to become. */
  function OptionalIntent(f: OptionalField): Intent {
    match f.edit case Keeping => Leave case Setting => Set(f.value) case Clearing => Clear
  }

  function FormIntent(f: Form, key: string): Intent {
    if key == "pattern" then Asked(Changed(f.pattern), false)
    else if key == "roles" then Asked(Changed(f.roles), false)
    else if key == "methods" then Asked(Changed(f.methods), false)
    else if key == "actions" then OptionalIntent(f.actions)
    else if key == "customAuthz" then OptionalIntent(f.customAuthz)
    else if key == "excludePatterns" then OptionalIntent(f.excludePatterns)
    else Leave
  }

  /**
   A confirmed edit form makes a request exactly when its rule is there, is an object, the amended
   document is valid and not the one it was; the request expects the rule the form showed, and what
   was typed, and nothing else, is in the rule it makes.
   */
  lemma EditFormMeans(hash: Hash, valid: Validator, value: Value, index: nat, f: Form, key: string)
    requires FromValue(hash, value) == Some(f.document) && f.kind == EditRule(index) && index < |RulesOrNone(value)|
    requires f.ruleDigest == OpenForm(hash, f.document, index).ruleDigest && RequestFromForm(valid, f).Ok?
    ensures var (r, rs) := (RequestFromForm(valid, f).value, RulesOrNone(value));
            var made := RulesOrNone(r.after);
            && f.confirming && valid(r.after) && r.after != value
            && r.expectedRule == Some((index, Digest(hash, rs[index])))
            && |made| == |rs| && (forall i | 0 <= i < |rs| && i != index :: made[i] == rs[i])
            && Get(made[index], key) == Follows(Get(rs[index], key), FormIntent(f, key))
  {
    EditChangesOnlyItsKeys(value, index, FormAmendment(f).edit, key);
    UnchangedIsSame(value, index, FormAmendment(f).edit);
    IntentsMatch(f, key);
  }

  lemma EditFormRefused(hash: Hash, valid: Validator, value: Value, index: nat, f: Form)
    requires FromValue(hash, value) == Some(f.document) && f.kind == EditRule(index) && index < |RulesOrNone(value)|
    requires f.confirming && RequestFromForm(valid, f).Err?
    ensures var a := FormAmendment(f);
            match RequestFromForm(valid, f).error
            case NotAnObject => !RulesOrNone(value)[index].Object?
            case Invalid => Amend(value, a).Ok? && !valid(Amend(value, a).value)
            case Unchanged => Amend(value, a) == Ok(value)
            case _ => false
  {
    if Amend(value, FormAmendment(f)).Ok? { UnchangedIsSame(value, index, FormAmendment(f).edit); }
  }

  lemma IntentsMatch(f: Form, key: string)
    requires f.kind.EditRule?
    ensures EditIntent(FormAmendment(f).edit, key) == FormIntent(f, key)
  {
  }

  /** An edit that reports no change makes the document it was made of. */
  lemma UnchangedIsSame(value: Value, index: nat, e: RuleEdit)
    requires Amend(value, Edit(index, e)).Ok?
    ensures ExactSummary(value, Edit(index, e)).changed == [] <==> Amend(value, Edit(index, e)).value == value
  {
    var rs := RulesOf(value).value;
    EditMakes(rs, index, e);
    var rule := Object(EditFields(rs[index].fields, e));
    EditSummary(rs, index, rule);
    assert rule == rs[index] <==> rs[index := rule] == rs;
    SameRulesSameDocument(value, Amend(value, Edit(index, e)).value);
  }

  lemma SameRulesSameDocument(before: Value, after: Value)
    requires RulesOf(before).Some? && RulesOf(after).Some? && after == WithRules(before, RulesOf(after).value)
    ensures after == before <==> RulesOf(after) == RulesOf(before)
  {
    if RulesOf(after) == RulesOf(before) {
      assert before.fields["configs" := before.fields["configs"]] == before.fields;
    }
  }

  /** A confirmed form for a new rule is refused only past the end or as invalid; it expects no rule. */
  lemma CreateFormMeans(hash: Hash, valid: Validator, value: Value, f: Form)
    requires FromValue(hash, value) == Some(f.document) && f.kind.Create?
    ensures var (r, rs) := (RequestFromForm(valid, f), RulesOrNone(value));
            var at := if f.kind.at.Some? then f.kind.at.value else |rs|;
            && (r.Ok? ==>
                  var made := RulesOrNone(r.value.after);
                  && f.confirming && valid(r.value.after) && r.value.expectedRule.None?
                  && at <= |rs| && |made| == |rs| + 1 && RemoveRule(made, at) == rs
                  && made[at] == NewRule(RuleSpec(f.pattern.value, f.roles.value, f.methods.value, NonEmpty(f.actions.value),
                                                  NonEmpty(f.customAuthz.value), NonEmpty(f.excludePatterns.value))))
            && (f.confirming && r.Err? ==>
                  match r.error
                  case IndexRange => at > |rs|
                  case Invalid => Amend(value, FormAmendment(f)).Ok? && !valid(Amend(value, FormAmendment(f)).value)
                  case _ => false)
  {
    InsertionMakes(value, FormAmendment(f));
  }

  lemma InsertionMakes(value: Value, a: Amendment)
    requires RulesOf(value).Some? && (a.Add? || a.Insert?)
    ensures var (r, rs) := (Amend(value, a), RulesOrNone(value));
            var at := if a.Insert? then a.index else |rs|;
            if at > |rs| then r == Err(IndexRange)
            else
              && r.Ok? && ExactSummary(value, a).changed != []
              && var made := RulesOrNone(r.value);
                 |made| == |rs| + 1 && RemoveRule(made, at) == rs && made[at] == NewRule(a.rule)
  {
    var rs := RulesOf(value).value;
    var at := if a.Insert? then a.index else |rs|;
    if at <= |rs| {
      InsertThenRemove(rs, at, NewRule(a.rule));
      InsertSummary(rs, at, NewRule(a.rule));
    }
  }

  /** A deletion: when it is refused, the rule it expects, and the rules it leaves. */
  lemma DeleteMeans(hash: Hash, valid: Validator, value: Value, d: Document, index: nat, confirmed: bool)
    requires FromValue(hash, value) == Some(d)
    ensures var (r, rs) := (RequestFromDelete(hash, valid, d, index, confirmed), RulesOrNone(value));
            && (r.Ok? <==> confirmed && index < |rs| && valid(WithRules(value, RemoveRule(rs, index))))
            && (r.Ok? ==> RulesOf(r.value.after) == Some(RemoveRule(rs, index))
                          && r.value.expectedRule == Some((index, Digest(hash, rs[index]))))
  {
    RemoveOneMakes(value, index);
  }

  lemma RemoveOneMakes(value: Value, index: nat)
    requires RulesOf(value).Some?
    ensures var rs := RulesOf(value).value;
            Amend(value, Remove([index])) == if index < |rs| then Ok(WithRules(value, RemoveRule(rs, index))) else Err(IndexRange)
  {
    var rs := RulesOf(value).value;
    if index < |rs| {
      assert IndexSet([index]) == {index};
      RemoveIsKeep(rs, index);
    } else {
      var a := Remove([index]);
      assert [index][0] == index && index in a.indices;
    }
  }

  /** A reorder: the rule it expects, and where it is in the rules it leaves. */
  lemma MoveMeans(hash: Hash, value: Value, d: Document, from: nat, to: nat)
    requires FromValue(hash, value) == Some(d)
    ensures var (r, rs) := (RequestFromMove(hash, d, from, to), RulesOrNone(value));
            && (r.Ok? <==> from < |rs| && to < |rs|)
            && (r.Ok? ==> var made := RulesOrNone(r.value.after);
                          && |made| == |rs| && made[to] == rs[from] && RemoveRule(made, to) == RemoveRule(rs, from)
                          && r.value.expectedRule == Some((from, Digest(hash, rs[from]))))
  {
    AmendmentTakesEffect(value, Move(from, to));
  }

  /** A form nobody typed into is refused, whatever the rule holds. */
  lemma UntouchedFormIsRefused(hash: Hash, valid: Validator, value: Value, d: Document, index: nat)
    requires FromValue(hash, value) == Some(d) && index < |RulesOrNone(value)|
    ensures RequestFromForm(valid, OpenForm(hash, d, index).(confirming := true)).Err?
  {
    var f := OpenForm(hash, d, index).(confirming := true);
    forall key ensures FormIntent(f, key) == Leave { OpenFormAsksNothing(hash, d, index, key); }
    AskingNothingIsRefused(valid, f);
  }

  lemma OpenFormAsksNothing(hash: Hash, d: Document, index: nat, key: string)
    requires RulesOf(d.value).Some? && index < |RulesOf(d.value).value|
    ensures FormIntent(OpenForm(hash, d, index).(confirming := true), key) == Leave
  {
  }

  lemma AskingNothingIsRefused(valid: Validator, f: Form)
    requires f.kind.EditRule? && forall key :: FormIntent(f, key) == Leave
    ensures RequestFromForm(valid, f).Err?
  {
    var value, a := f.document.value, FormAmendment(f);
    if Amend(value, a).Ok? {
      forall key ensures EditIntent(a.edit, key) == Leave { IntentsMatch(f, key); }
      NothingAsked(value, a.index, a.edit);
      UnchangedIsSame(value, a.index, a.edit);
    }
  }

  lemma NothingAsked(value: Value, index: nat, e: RuleEdit)
    requires Amend(value, Edit(index, e)).Ok? && forall key :: EditIntent(e, key) == Leave
    ensures Amend(value, Edit(index, e)).value == value
  {
    var rs := RulesOf(value).value;
    EditMakes(rs, index, e);
    NothingToDo(rs[index].fields, e);
    assert rs[index := rs[index]] == rs;
    SameRulesSameDocument(value, Amend(value, Edit(index, e)).value);
  }

  lemma NothingToDo(fields: Fields, e: RuleEdit)
    requires !SetsAndClears(e) && forall key :: EditIntent(e, key) == Leave
    ensures EditFields(fields, e) == fields
  {
    var edited := EditFields(fields, e);
    forall key ensures FieldOf(edited, key) == FieldOf(fields, key) {
      FieldFollows(fields, e, key);
      assert EditIntent(e, key) == Leave;
    }
    assert forall key :: (key in edited <==> FieldOf(edited, key).Some?) && (key in fields <==> FieldOf(fields, key).Some?);
    assert edited == fields;
  }
}
