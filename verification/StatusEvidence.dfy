/** The evidence the checker collects about a Status: which kind and source its literals name, and when the
    executions of the body bear it out. */
module StatusEvidence {
  import opened StatusChecker
  import opened Text

  // ----- What the traversal meets -----

  /** What directStatusEvidence meets on its way, closures left out. */
  datatype Step = Binds(name: string, literal: Expr) | Gives(results: seq<Expr>)

  function Steps(ss: seq<Stmt>): seq<Step>
    decreases ss, 1
  {
    if ss == [] then [] else StepsOf(ss[0]) + Steps(ss[1..])
  }

  function StepsOf(s: Stmt): seq<Step>
    decreases s, 0
  {
    match s
    case Block(body) => Steps(body)
    case If(_, yes, no) => Steps(yes) + Steps(no)
    case For(_, body) => Steps(body)
    case Assign(name, value) => if IsStatusLiteral(value) then [Binds(name, value)] else []
    case Return(results) => [Gives(results)]
    case _ => []
  }

  predicate IsStatusLiteral(e: Expr) {
    e.Composite? && IsStatusType(e.typ)
  }

  lemma {:induction false} ReturnsAreSteps(ss: seq<Stmt>)
    ensures forall r :: r in OwnReturns(ss) <==> Gives(r) in Steps(ss)
    decreases ss, 1
  {
    if ss != [] {
      ReturnsOfAreSteps(ss[0]);
      ReturnsAreSteps(ss[1..]);
    }
  }

  lemma {:induction false} ReturnsOfAreSteps(s: Stmt)
    ensures forall r :: r in OwnReturnsOf(s) <==> Gives(r) in StepsOf(s)
    decreases s, 0
  {
    match s
    case Block(body) => ReturnsAreSteps(body);
    case If(_, yes, no) =>
      ReturnsAreSteps(yes);
      ReturnsAreSteps(no);
    case For(_, body) => ReturnsAreSteps(body);
    case _ =>
  }

  function SourceName(e: Expr): Option<string> {
    if e.Selector? && e.x == Ident(PROVIDERS) && e.sel in {"SourceExternal", "SourceSimulated", "SourceLocal", "SourceCodeOnly"}
    then Some(e.sel)
    else None
  }

  datatype Evidence = Evidence(kind: string, source: string)

  /** The literal a return statement stands for: its own, or the one last bound to the identifier it names. */
  function LiteralOf(results: seq<Expr>, bindings: map<string, Expr>): Option<Expr> {
    if |results| != 1 then None
    else if IsStatusLiteral(results[0]) then Some(results[0])
    else if results[0].Ident? && results[0].name in bindings then Some(bindings[results[0].name])
    else None
  }

  /** A literal the evidence can use, with the kind it names. */
  function KindOf(literal: Expr): Option<string>
    requires literal.Composite?
  {
    var fields := StatusFields(literal.elements);
    if "Kind" !in fields || LiteralText(fields["Kind"]) == Some("") then None else LiteralText(fields["Kind"])
  }

  datatype Gathering = Gathering(bindings: map<string, Expr>, kinds: seq<string>, source: string, valid: bool)

  function Gather(g: Gathering, step: Step): Gathering {
    match step
    case Binds(name, literal) => g.(bindings := g.bindings[name := literal])
    case Gives(results) =>
      var literal := LiteralOf(results, g.bindings);
      if literal.None? || !literal.value.Composite? || KindOf(literal.value).None? then g.(valid := false)
      else
        var fields := StatusFields(literal.value.elements);
        var more := g.(kinds := g.kinds + [KindOf(literal.value).value]);
        if "Source" !in fields then more
        else if SourceName(fields["Source"]).None? then more.(valid := false)
        else
          var source := SourceName(fields["Source"]).value;
          more.(source := source, valid := g.valid && (g.source == "" || g.source == source))
  }

  function Gathered(steps: seq<Step>): Gathering {
    if steps == [] then Gathering(map[], [], "", true) else Gather(Gathered(steps[..|steps| - 1]), steps[|steps| - 1])
  }

  /** directStatusEvidence. `kindSource` is what returnedSource answers for the Kind, if there is one. */
  function EvidenceOf(body: seq<Stmt>, kindSource: Option<string>): Option<Evidence> {
    var g := Gathered(Steps(body));
    if !g.valid || g.kinds == [] || exists k :: k in g.kinds && k != g.kinds[0] then None
    else Some(Evidence(g.kinds[0], if g.source == "" then SourceOfKind(kindSource) else g.source))
  }

  function SourceOfKind(kindSource: Option<string>): string {
    match kindSource
    case Some("external") => "SourceExternal"
    case Some("simulated") => "SourceSimulated"
    case _ => ""
  }

  method DirectStatusEvidence(body: seq<Stmt>, kindSource: Option<string>) returns (evidence: Option<Evidence>)
    ensures evidence == EvidenceOf(body, kindSource)
    ensures forall kind :: (evidence.Some? && evidence.value.kind == kind) <==> AllReturnsName(body, kind)
  {
    hide StatusFields, LiteralText, Steps, SourceName, LiteralOf, KindOf, AllReturnsName;
    forall kind
      ensures (EvidenceOf(body, kindSource).Some? && EvidenceOf(body, kindSource).value.kind == kind) <==> AllReturnsName(body, kind)
    {
      EvidenceIsGivenExactlyWhenReturnsAgree(body, kindSource, kind);
    }
    var steps := Steps(body);
    var bindings: map<string, Expr> := map[];
    var kinds: seq<string> := [];
    var source, valid := "", true;
    for i := 0 to |steps|
      invariant Gathering(bindings, kinds, source, valid) == Gathered(steps[..i])
    {
      assert steps[..i + 1][..i] == steps[..i];
      if steps[i].Binds? {
        bindings := bindings[steps[i].name := steps[i].literal];
        continue;
      }
      var literal := LiteralOf(steps[i].results, bindings);
      if literal.None? || !literal.value.Composite? {
        valid := false;
        continue;
      }
      var kind := KindOf(literal.value);
      if kind.None? {
        valid := false;
        continue;
      }
      kinds := kinds + [kind.value];
      var fields := StatusFields(literal.value.elements);
      if "Source" in fields {
        var named := SourceName(fields["Source"]);
        if named.None? {
          valid := false;
          continue;
        }
        if source != "" && source != named.value {
          valid := false;
        }
        source := named.value;
      }
    }
    assert steps[..|steps|] == steps;
    if source == "" {
      source := SourceOfKind(kindSource);
    }
    if !valid || |kinds| == 0 {
      return None;
    }
    for k := 1 to |kinds|
      invariant forall j :: 0 <= j < k ==> kinds[j] == kinds[0]
    {
      if kinds[k] != kinds[0] {
        assert kinds[k] in kinds;
        return None;
      }
    }
    evidence := Some(Evidence(kinds[0], source));
  }

  /** A return statement whose own literal, if it has one, agrees with what was gathered. */
  predicate Agrees(results: seq<Expr>, g: Gathering) {
    && |results| == 1 && (IsStatusLiteral(results[0]) || results[0].Ident?)
    && (results[0].Composite? ==>
          && KindOf(results[0]).Some? && KindOf(results[0]).value in g.kinds
          && ("Source" in StatusFields(results[0].elements) ==>
                SourceName(StatusFields(results[0].elements)["Source"]) == Some(g.source) && g.source != ""))
  }

  lemma {:induction false} EveryReturnAgrees(steps: seq<Step>, results: seq<Expr>)
    requires Gathered(steps).valid && Gives(results) in steps
    ensures Agrees(results, Gathered(steps))
  {
    hide StatusFields, LiteralText, KindOf;
    var before, last := steps[..|steps| - 1], steps[|steps| - 1];
    assert steps == before + [last];
    if last != Gives(results) {
      EveryReturnAgrees(before, results);
    }
  }

  lemma QuoteFollowsEscape(inside: LiteralBody, n: nat)
    requires 0 < n <= |inside|
    requires forall i :: n <= i < |inside| ==> inside[i] == '"'
    ensures n < |inside| ==> inside[n - 1] == '\\'
  {
    if n < |inside| {
      assert inside[n] == '"';
    }
  }

  lemma PlainTextIsItself(e: Expr, escape: string -> (string, nat))
    requires e.StringLit? && LiteralText(e).value != "" && '\\' !in LiteralText(e).value
    ensures Unquote(e.inside, escape) == LiteralText(e).value
  {
    var value := LiteralText(e).value;
    LiteralTextIsFront(e);
    assert value[|value| - 1] in value && e.inside[|value| - 1] == value[|value| - 1];
    QuoteFollowsEscape(e.inside, |value|);
    assert e.inside == value;
    UnquoteKeepsPlainText(value, escape);
  }

  lemma {:induction false} UnquoteKeepsPlainText(s: string, escape: string -> (string, nat))
    requires '\\' !in s
    ensures Unquote(s, escape) == s
  {
    if s != "" {
      assert s[0] in s;
      UnquoteKeepsPlainText(s[1..], escape);
      assert s == [s[0]] + s[1..];
    }
  }

  // ----- When evidence is given -----

  /** The literal last bound to a variable on the way. */
  function LastBinding(steps: seq<Step>, name: string): Option<Expr> {
    if steps == [] then None
    else
      var last := steps[|steps| - 1];
      if last.Binds? && last.name == name then Some(last.literal) else LastBinding(steps[..|steps| - 1], name)
  }

  /** The literal that the return statement at this place stands for. */
  function LiteralAt(steps: seq<Step>, i: nat): Option<Expr>
    requires i < |steps| && steps[i].Gives?
  {
    var results := steps[i].results;
    if |results| != 1 then None
    else if IsStatusLiteral(results[0]) then Some(results[0])
    else if results[0].Ident? then LastBinding(steps[..i], results[0].name)
    else None
  }

  /** The return statement stands for a literal that names this kind, and this source if it names one. */
  ghost predicate Names(literal: Option<Expr>, kind: string, source: string) {
    && literal.Some? && literal.value.Composite? && KindOf(literal.value) == Some(kind)
    && ("Source" in StatusFields(literal.value.elements) ==> SourceName(StatusFields(literal.value.elements)["Source"]) == Some(source))
  }

  ghost predicate AllName(steps: seq<Step>, kind: string, source: string) {
    forall i :: 0 <= i < |steps| && steps[i].Gives? ==> Names(LiteralAt(steps, i), kind, source)
  }

  /** There is a return statement, and all of them stand for literals that name this kind and at most one source. */
  ghost predicate AllReturnsName(body: seq<Stmt>, kind: string) {
    SomeReturn(Steps(body)) && exists source :: AllName(Steps(body), kind, source)
  }

  ghost predicate OnlyStatusBindings(steps: seq<Step>) {
    forall i :: 0 <= i < |steps| && steps[i].Binds? ==> IsStatusLiteral(steps[i].literal)
  }

  lemma {:induction false} StepsBindStatuses(ss: seq<Stmt>)
    ensures OnlyStatusBindings(Steps(ss))
    decreases ss, 1
  {
    if ss != [] {
      StepsOfBindStatuses(ss[0]);
      StepsBindStatuses(ss[1..]);
    }
  }

  lemma {:induction false} StepsOfBindStatuses(s: Stmt)
    ensures OnlyStatusBindings(StepsOf(s))
    decreases s, 0
  {
    match s
    case Block(body) => StepsBindStatuses(body);
    case If(_, yes, no) =>
      StepsBindStatuses(yes);
      StepsBindStatuses(no);
    case For(_, body) => StepsBindStatuses(body);
    case _ =>
  }

  ghost predicate KnowsBindings(bindings: map<string, Expr>, steps: seq<Step>) {
    forall name :: (name in bindings <==> LastBinding(steps, name).Some?) &&
                   (name in bindings ==> Some(bindings[name]) == LastBinding(steps, name))
  }

  lemma {:induction false} GatheredBindings(steps: seq<Step>)
    ensures KnowsBindings(Gathered(steps).bindings, steps)
  {
    hide KindOf, StatusFields, SourceName, LiteralOf;
    if steps != [] {
      GatheredBindings(steps[..|steps| - 1]);
    }
  }

  ghost predicate SomeReturn(steps: seq<Step>) {
    exists i :: 0 <= i < |steps| && steps[i].Gives?
  }

  /** What was gathered is one kind and one source exactly when every return statement so far names them. The
      source is blank as long as no literal has named one. */
  ghost predicate Uniform(g: Gathering, kind: string) {
    g.valid && forall k :: k in g.kinds ==> k == kind
  }

  lemma LiteralOfIsLiteralAt(steps: seq<Step>, i: nat)
    requires i < |steps| && steps[i].Gives?
    ensures LiteralOf(steps[i].results, Gathered(steps[..i]).bindings) == LiteralAt(steps, i)
  {
    hide Gathered;
    GatheredBindings(steps[..i]);
  }

  lemma AllNameStep(steps: seq<Step>, last: Step, kind: string, source: string)
    ensures AllName(steps + [last], kind, source) <==>
      AllName(steps, kind, source) && (last.Gives? ==> Names(LiteralAt(steps + [last], |steps|), kind, source))
  {
    hide Names, StatusFields;
    var all := steps + [last];
    forall i | 0 <= i < |steps| && steps[i].Gives?
      ensures LiteralAt(all, i) == LiteralAt(steps, i)
    {
      assert all[..i] == steps[..i];
    }
    if AllName(all, kind, source) {
      forall i | 0 <= i < |steps| && steps[i].Gives?
        ensures Names(LiteralAt(steps, i), kind, source)
      {
        assert all[i].Gives?;
      }
    }
  }

  lemma SourceNamesAreNotBlank(e: Expr)
    ensures SourceName(e) != Some("")
  {
  }

  /** One more return statement, standing for this literal. */
  lemma GatherReturn(g: Gathering, results: seq<Expr>, literal: Option<Expr>, kind: string)
    requires literal == LiteralOf(results, g.bindings) && (literal.Some? ==> literal.value.Composite?)
    ensures var after := Gather(g, Gives(results));
      && (Uniform(after, kind) ==> Uniform(g, kind) && Names(literal, kind, after.source) && after.kinds != [])
      && (Uniform(after, kind) ==> after.source == g.source || g.source == "")
      && (Uniform(after, kind) && after.source == "" ==> forall source :: Names(literal, kind, source))
      && (forall source :: Uniform(g, kind) && (g.source == "" || g.source == source) && Names(literal, kind, source) ==>
            Uniform(after, kind) && (after.source == "" || after.source == source))
  {
    hide StatusFields, LiteralText, LiteralOf, SourceName, KindOf;
    if literal.Some? && "Source" in StatusFields(literal.value.elements) {
      SourceNamesAreNotBlank(StatusFields(literal.value.elements)["Source"]);
    }
    var after := Gather(g, Gives(results));
    if Uniform(after, kind) {
      assert KindOf(literal.value).value in after.kinds;
      assert forall k :: k in g.kinds ==> k in after.kinds;
    }
  }

  lemma UniformReturnStep(front: seq<Step>, last: Step, kind: string)
    requires last.Gives? && OnlyStatusBindings(front)
    requires Uniform(Gathered(front), kind) ==> AllName(front, kind, Gathered(front).source)
    requires forall source :: AllName(front, kind, source) ==>
               Uniform(Gathered(front), kind) && (Gathered(front).source == "" || Gathered(front).source == source)
    requires Gathered(front).source == "" && Uniform(Gathered(front), kind) ==> forall source :: AllName(front, kind, source)
    ensures var g := Gather(Gathered(front), last);
      && (Uniform(g, kind) ==> AllName(front + [last], kind, g.source) && g.kinds != [])
      && (forall source :: AllName(front + [last], kind, source) ==> Uniform(g, kind) && (g.source == "" || g.source == source))
      && (g.source == "" && Uniform(g, kind) ==> forall source :: AllName(front + [last], kind, source))
  {
    hide Names, Uniform, Gather, Gathered, LiteralOf, LiteralAt, AllName;
    var steps, g := front + [last], Gathered(front);
    var literal := LiteralAt(steps, |front|);
    assert steps[..|front|] == front && steps[|front|] == last;
    LiteralOfIsLiteralAt(steps, |front|);
    LastLiteralIsStatus(front, last);
    GatherReturn(g, last.results, literal, kind);
    forall source
      ensures AllName(steps, kind, source) <==> AllName(front, kind, source) && Names(literal, kind, source)
    {
      AllNameStep(front, last, kind, source);
    }
  }

  lemma LastLiteralIsStatus(front: seq<Step>, last: Step)
    requires last.Gives? && OnlyStatusBindings(front)
    ensures var literal := LiteralAt(front + [last], |front|); literal.Some? ==> literal.value.Composite?
  {
    assert (front + [last])[..|front|] == front;
    if |last.results| == 1 && last.results[0].Ident? {
      BoundIsStatus(front, last.results[0].name);
    }
  }

  lemma {:induction false} BoundIsStatus(steps: seq<Step>, name: string)
    requires OnlyStatusBindings(steps)
    ensures LastBinding(steps, name).Some? ==> IsStatusLiteral(LastBinding(steps, name).value)
  {
    if steps != [] {
      BoundIsStatus(steps[..|steps| - 1], name);
    }
  }

  /** The gathered source is named by some literal, or no literal names one. */
  lemma {:induction false} UniformMeansAllName(steps: seq<Step>, kind: string)
    requires OnlyStatusBindings(steps)
    ensures Uniform(Gathered(steps), kind) ==> AllName(steps, kind, Gathered(steps).source)
    ensures forall source :: AllName(steps, kind, source) ==>
              Uniform(Gathered(steps), kind) && (Gathered(steps).source == "" || Gathered(steps).source == source)
    ensures Gathered(steps).source == "" && Uniform(Gathered(steps), kind) ==> forall source :: AllName(steps, kind, source)
    ensures Uniform(Gathered(steps), kind) ==> (Gathered(steps).kinds != [] <==> SomeReturn(steps))
  {
    hide KindOf, StatusFields, SourceName, LiteralOf, LiteralAt, LastBinding, Names;
    if steps != [] {
      var front, last := steps[..|steps| - 1], steps[|steps| - 1];
      assert steps == front + [last];
      assert forall i :: 0 <= i < |front| ==> steps[i] == front[i];
      UniformMeansAllName(front, kind);
      if last.Gives? {
        assert steps[|front|].Gives?;
        UniformReturnStep(front, last, kind);
      } else {
        forall source
          ensures AllName(steps, kind, source) <==> AllName(front, kind, source)
        {
          AllNameStep(front, last, kind, source);
        }
      }
    }
  }

  /** Evidence of a kind is given exactly when there is a return statement, and all of them, each through its
      own literal or the one last bound to the variable it names, name that kind and at most one source. */
  lemma EvidenceIsGivenExactlyWhenReturnsAgree(body: seq<Stmt>, kindSource: Option<string>, kind: string)
    ensures (EvidenceOf(body, kindSource).Some? && EvidenceOf(body, kindSource).value.kind == kind) <==> AllReturnsName(body, kind)
  {
    hide Gathered, AllName, SomeReturn, Steps, OnlyStatusBindings;
    StepsBindStatuses(body);
    UniformMeansAllName(Steps(body), kind);
    UniformMeansEvidence(Gathered(Steps(body)), body, kindSource, kind);
  }

  lemma UniformMeansEvidence(g: Gathering, body: seq<Stmt>, kindSource: Option<string>, kind: string)
    requires g == Gathered(Steps(body))
    ensures (EvidenceOf(body, kindSource).Some? && EvidenceOf(body, kindSource).value.kind == kind) <==>
      Uniform(g, kind) && g.kinds != []
  {
    hide Gathered, Steps;
    if g.kinds != [] {
      assert g.kinds[0] in g.kinds;
      if Uniform(g, kind) {
        assert g.kinds[0] == kind;
      }
    }
  }

  // ----- When executions bear the evidence out -----

  /** A text value that a literal spelled like the kind stands for; for a kind without escapes, the kind itself. */
  ghost predicate Spells(value: Value, kind: string, w: World) {
    exists inside: LiteralBody :: LiteralText(StringLit(inside)) == Some(kind) && value == Text(Unquote(inside, w.escape))
  }

  /** A status of the evidence's kind, and of its source if it has one. */
  ghost predicate Bears(v: Value, evidence: Evidence, w: World) {
    && v.Status? && "Kind" in v.fields && Spells(v.fields["Kind"], evidence.kind, w)
    && ("Source" in v.fields ==> v.fields["Source"] == Const(evidence.source))
  }

  lemma SpelledPlainly(value: Value, kind: string, w: World)
    requires Spells(value, kind, w) && kind != "" && '\\' !in kind
    ensures value == Text(kind)
  {
    hide LiteralText, Unquote;
    var inside: LiteralBody :| LiteralText(StringLit(inside)) == Some(kind) && value == Text(Unquote(inside, w.escape));
    PlainTextIsItself(StringLit(inside), w.escape);
  }

  ghost predicate LiteralBears(literal: Expr, evidence: Evidence) {
    IsStatusLiteral(literal) && Names(Some(literal), evidence.kind, evidence.source)
  }

  lemma LiteralBearsEvidence(literal: Expr, evidence: Evidence, env: Env, w: World)
    requires LiteralBears(literal, evidence)
    ensures Bears(Eval(literal, env, w), evidence, w)
  {
    hide StatusFields, EvalFields, LiteralText, Unquote;
    FieldsMean(literal.elements, env, w);
    var kind := StatusFields(literal.elements)["Kind"];
    OnlyLiteralsHaveText(kind);
    var inside: LiteralBody := kind.inside;
    assert LiteralText(StringLit(inside)) == Some(evidence.kind) && Eval(kind, env, w) == Text(Unquote(inside, w.escape));
  }

  /** Every statement of the text that sets one of these variables, closures included, sets it to a literal of
      the evidence's kind and source, or sets another of its fields. */
  ghost predicate WritesBear(statements: seq<Stmt>, names: set<string>, evidence: Evidence) {
    && (forall name, value :: Assign(name, value) in statements && name in names ==> LiteralBears(value, evidence))
    && (forall name, field, value :: AssignField(name, field, value) in statements && name in names ==> field != "Kind" && field != "Source")
  }

  /** The two values are the same as far as the evidence goes. */
  predicate SameEvidence(v: Value, v': Value) {
    v == v' || (v.Status? && v'.Status? && SameAt(v.fields, v'.fields, "Kind") && SameAt(v.fields, v'.fields, "Source"))
  }

  predicate SameAt(f: map<string, Value>, g: map<string, Value>, field: string) {
    (field in f <==> field in g) && (field in f ==> f[field] == g[field])
  }

  /** The variable holds what some literal assigned to it in the text evaluates to, as far as the evidence goes. */
  ghost predicate SetByText(v: Value, name: string, statements: seq<Stmt>, w: World) {
    exists literal, env :: Assign(name, literal) in statements && SameEvidence(Eval(literal, env, w), v)
  }

  /** Evaluating an expression may run closures of the text, and nothing else sets these variables: each keeps
      its value as far as the evidence goes, or holds one that the text assigns to it. */
  ghost predicate EffectsFollowText(w: World, names: set<string>, statements: seq<Stmt>) {
    forall e, env, name :: name in names && name in w.effect(e, env) ==>
      || (name in env && SameEvidence(env[name], w.effect(e, env)[name]))
      || SetByText(w.effect(e, env)[name], name, statements, w)
  }

  ghost predicate EffectsKeepNames(w: World, names: set<string>) {
    forall e, env, name :: name in names && name in env ==> name in w.effect(e, env)
  }

  /** The variables in `bound` hold statuses that bear the evidence out. */
  ghost predicate Holding(env: Env, bound: set<string>, evidence: Evidence, w: World) {
    forall name :: name in bound ==> name in env && Bears(env[name], evidence, w)
  }

  /** The variables that are set on every path that falls through, given those set before. */
  function BoundAfter(ss: seq<Stmt>, bound: set<string>): set<string>
    decreases ss, 1
  {
    if ss == [] then bound else BoundAfter(ss[1..], BoundAfterOf(ss[0], bound))
  }

  function BoundAfterOf(s: Stmt, bound: set<string>): set<string>
    decreases s, 0
  {
    match s
    case Block(body) => BoundAfter(body, bound)
    case If(_, yes, no) => BoundAfter(yes, bound) * BoundAfter(no, bound)
    case Assign(name, _) => bound + {name}
    case _ => bound
  }

  /** Each return statement of the function itself gives a literal, or a variable that is set by then. */
  predicate ReturnsBound(ss: seq<Stmt>, bound: set<string>)
    decreases ss, 1
  {
    ss == [] || (ReturnsBoundOf(ss[0], bound) && ReturnsBound(ss[1..], BoundAfterOf(ss[0], bound)))
  }

  predicate ReturnsBoundOf(s: Stmt, bound: set<string>)
    decreases s, 0
  {
    match s
    case Block(body) => ReturnsBound(body, bound)
    case If(_, yes, no) => ReturnsBound(yes, bound) && ReturnsBound(no, bound)
    case For(_, body) => ReturnsBound(body, bound)
    case Return(results) => |results| == 1 && (results[0].Ident? ==> results[0].name in bound)
    case _ => true
  }

  /** What an analysis of the text can establish about a body, apart from where its variables are set. */
  datatype Setting = Setting(names: set<string>, statements: seq<Stmt>, evidence: Evidence)

  ghost predicate Sound(t: Setting, w: World) {
    && WritesBear(t.statements, t.names, t.evidence)
    && EffectsFollowText(w, t.names, t.statements) && EffectsKeepNames(w, t.names)
  }

  /** The statements belong to the text, their own literals bear the evidence out, and they return no other variables. */
  ghost predicate Within(ss: seq<Stmt>, t: Setting) {
    && (forall s :: s in AllStatements(ss) ==> s in t.statements)
    && (forall r :: r in OwnReturns(ss) ==> ReturnFits(r, t))
  }

  ghost predicate WithinOf(s: Stmt, t: Setting) {
    && (forall x :: x in StatementsOf(s) ==> x in t.statements)
    && (forall r :: r in OwnReturnsOf(s) ==> ReturnFits(r, t))
  }

  ghost predicate ReturnFits(results: seq<Expr>, t: Setting) {
    |results| == 1 && if results[0].Ident? then results[0].name in t.names else LiteralBears(results[0], t.evidence)
  }

  lemma SameEvidenceBears(v: Value, v': Value, evidence: Evidence, w: World)
    requires SameEvidence(v, v') && Bears(v, evidence, w)
    ensures Bears(v', evidence, w)
  {
    hide Spells;
  }

  /** Evaluating an expression keeps what the variables hold. */
  lemma EffectKeepsHolding(e: Expr, env: Env, bound: set<string>, t: Setting, w: World)
    requires Sound(t, w) && Holding(env, bound, t.evidence, w) && bound <= t.names
    ensures Holding(w.effect(e, env), bound, t.evidence, w)
  {
    hide Bears, LiteralBears, SameEvidence;
    forall name | name in bound
      ensures name in w.effect(e, env) && Bears(w.effect(e, env)[name], t.evidence, w)
    {
      var v := w.effect(e, env)[name];
      if name in env && SameEvidence(env[name], v) {
        SameEvidenceBears(env[name], v, t.evidence, w);
      } else {
        var literal, env' :| Assign(name, literal) in t.statements && SameEvidence(Eval(literal, env', w), v);
        LiteralBearsEvidence(literal, t.evidence, env', w);
        SameEvidenceBears(Eval(literal, env', w), v, t.evidence, w);
      }
    }
  }

  /** What an execution ends with, when it starts with `bound` holding and falls through with `after` holding. */
  ghost predicate EndsWell(outcome: Outcome, bound: set<string>, after: set<string>, t: Setting, w: World) {
    match outcome
    case Fell(env) => Holding(env, after * t.names, t.evidence, w) && Holding(env, bound * t.names, t.evidence, w)
    case Broke(env) => Holding(env, bound * t.names, t.evidence, w)
    case Continued(env) => Holding(env, bound * t.names, t.evidence, w)
    case Returned(values) => |values| == 1 && Bears(values[0], t.evidence, w)
    case Unfinished => true
  }

  lemma {:induction false} RunEndsWell(ss: seq<Stmt>, bound: set<string>, env: Env, t: Setting, w: World, fuel: nat)
    requires Sound(t, w) && Within(ss, t) && ReturnsBound(ss, bound) && Holding(env, bound * t.names, t.evidence, w)
    ensures EndsWell(Run(ss, env, w, fuel), bound, BoundAfter(ss, bound), t, w)
    decreases fuel
  {
    hide Sound, Bears, ReturnFits, Execute, StatementsOf, OwnReturnsOf, BoundAfterOf, ReturnsBoundOf;
    if fuel > 0 && ss != [] {
      var first := Execute(ss[0], env, w, fuel - 1);
      ExecuteEndsWell(ss[0], bound, env, t, w, fuel - 1);
      if first.Fell? {
        BoundGrows(ss[0], bound);
        RunEndsWell(ss[1..], BoundAfterOf(ss[0], bound), first.env, t, w, fuel - 1);
        EndsWellFromMore(Run(ss[1..], first.env, w, fuel - 1), bound, BoundAfterOf(ss[0], bound), BoundAfter(ss, bound), t, w);
      }
    }
  }

  /** More variables are held where more were held at the start. */
  lemma EndsWellFromMore(outcome: Outcome, bound: set<string>, more: set<string>, after: set<string>, t: Setting, w: World)
    requires EndsWell(outcome, more, after, t, w) && bound <= more
    ensures EndsWell(outcome, bound, after, t, w)
  {
    hide Bears;
  }

  lemma {:induction false} BoundGrows(s: Stmt, bound: set<string>)
    ensures bound <= BoundAfterOf(s, bound)
    decreases s, 0
  {
    match s
    case Block(body) => BoundGrowsInAll(body, bound);
    case If(_, yes, no) =>
      BoundGrowsInAll(yes, bound);
      BoundGrowsInAll(no, bound);
    case _ =>
  }

  lemma {:induction false} BoundGrowsInAll(ss: seq<Stmt>, bound: set<string>)
    ensures bound <= BoundAfter(ss, bound)
    decreases ss, 1
  {
    if ss != [] {
      BoundGrows(ss[0], bound);
      BoundGrowsInAll(ss[1..], BoundAfterOf(ss[0], bound));
    }
  }

  lemma {:induction false} ExecuteEndsWell(s: Stmt, bound: set<string>, env: Env, t: Setting, w: World, fuel: nat)
    requires Sound(t, w) && WithinOf(s, t) && ReturnsBoundOf(s, bound) && Holding(env, bound * t.names, t.evidence, w)
    ensures EndsWell(Execute(s, env, w, fuel), bound, BoundAfterOf(s, bound), t, w)
    decreases fuel
  {
    hide Sound, Bears, ReturnFits, Run, Holding;
    if fuel > 0 {
      match s {
        case Block(body) =>
          RunEndsWell(body, bound, env, t, w, fuel - 1);
        case If(cond, yes, no) =>
          IfEndsWell(s, bound, env, t, w, fuel);
        case For(guard, body) =>
          ForEndsWell(s, bound, env, t, w, fuel);
        case Assign(name, value) =>
          AssignEndsWell(s, bound, env, t, w);
        case AssignField(name, field, value) =>
          AssignFieldEndsWell(s, bound, env, t, w);
        case Evaluate(e) =>
          EffectKeepsHolding(e, env, bound * t.names, t, w);
        case Return(results) =>
          ReturnEndsWell(results, bound, env, t, w);
        case Break =>
        case Continue =>
      }
    }
  }

  lemma IfEndsWell(s: Stmt, bound: set<string>, env: Env, t: Setting, w: World, fuel: nat)
    requires s.If? && fuel > 0
    requires Sound(t, w) && WithinOf(s, t) && ReturnsBoundOf(s, bound) && Holding(env, bound * t.names, t.evidence, w)
    ensures EndsWell(Execute(s, env, w, fuel), bound, BoundAfterOf(s, bound), t, w)
    decreases fuel, 0
  {
    hide Sound, Bears, ReturnFits, Run, BoundAfter, ReturnsBound;
    var branch, after := if w.truth(s.cond, env) then s.yes else s.no, w.effect(s.cond, env);
    EffectKeepsHolding(s.cond, env, bound * t.names, t, w);
    RunEndsWell(branch, bound, after, t, w, fuel - 1);
  }

  lemma ForEndsWell(s: Stmt, bound: set<string>, env: Env, t: Setting, w: World, fuel: nat)
    requires s.For? && fuel > 0
    requires Sound(t, w) && WithinOf(s, t) && ReturnsBoundOf(s, bound) && Holding(env, bound * t.names, t.evidence, w)
    ensures EndsWell(Execute(s, env, w, fuel), bound, BoundAfterOf(s, bound), t, w)
    decreases fuel, 0
  {
    hide Sound, Bears, ReturnFits, Run, BoundAfter, ReturnsBound;
    var after := if s.guard.Some? then w.effect(s.guard.value, env) else env;
    if s.guard.Some? {
      EffectKeepsHolding(s.guard.value, env, bound * t.names, t, w);
    }
    var once := Run(s.body, after, w, fuel - 1);
    RunEndsWell(s.body, bound, after, t, w, fuel - 1);
    if once.Fell? || once.Continued? {
      ExecuteEndsWell(s, bound, once.env, t, w, fuel - 1);
    }
  }

  lemma AssignEndsWell(s: Stmt, bound: set<string>, env: Env, t: Setting, w: World)
    requires s.Assign? && Sound(t, w) && WithinOf(s, t) && Holding(env, bound * t.names, t.evidence, w)
    ensures EndsWell(Fell(w.effect(s.value, env)[s.name := Eval(s.value, env, w)]), bound, bound + {s.name}, t, w)
  {
    hide Bears, LiteralBears, ReturnFits, EffectsFollowText;
    EffectKeepsHolding(s.value, env, bound * t.names, t, w);
    assert s in StatementsOf(s);
    if s.name in t.names {
      assert Assign(s.name, s.value) in t.statements;
      LiteralBearsEvidence(s.value, t.evidence, env, w);
    }
  }

  lemma AssignFieldEndsWell(s: Stmt, bound: set<string>, env: Env, t: Setting, w: World)
    requires s.AssignField? && Sound(t, w) && WithinOf(s, t) && Holding(env, bound * t.names, t.evidence, w)
    ensures EndsWell(Fell(SetField(w.effect(s.value, env), s.name, s.field, Eval(s.value, env, w))), bound, bound, t, w)
  {
    hide Spells, LiteralBears, ReturnFits, EffectsFollowText;
    EffectKeepsHolding(s.value, env, bound * t.names, t, w);
    assert s in StatementsOf(s);
    assert AssignField(s.name, s.field, s.value) in t.statements;
  }

  lemma ReturnEndsWell(results: seq<Expr>, bound: set<string>, env: Env, t: Setting, w: World)
    requires WithinOf(Return(results), t) && ReturnsBoundOf(Return(results), bound) && Holding(env, bound * t.names, t.evidence, w)
    ensures EndsWell(Returned(EvalAll(results, env, w)), bound, bound, t, w)
  {
    hide Bears, LiteralBears;
    assert results in OwnReturnsOf(Return(results));
    assert ReturnFits(results, t);
    if !results[0].Ident? {
      LiteralBearsEvidence(results[0], t.evidence, env, w);
    }
  }

  // ----- The main result -----

  /** The variables that the function itself returns. */
  function ReturnedNames(body: seq<Stmt>): set<string> {
    set r: seq<Expr> | r in OwnReturns(body) && |r| == 1 && r[0].Ident? :: r[0].name
  }

  /** Evidence is sound for every body in which, closures included, the returned variables are only ever set to
      literals of the evidence's kind and source or in other fields, and are set on every path before they are
      returned or hold such a status on entry. Every execution that returns yields one status of that kind, and
      of that source if it has one. */
  lemma EvidenceIsSound(body: seq<Stmt>, kindSource: Option<string>, entry: set<string>, env: Env, w: World, fuel: nat)
    requires EvidenceOf(body, kindSource).Some?
    requires WritesBear(AllStatements(body), ReturnedNames(body), EvidenceOf(body, kindSource).value)
    requires ReturnsBound(body, entry) && Holding(env, entry * ReturnedNames(body), EvidenceOf(body, kindSource).value, w)
    requires EffectsFollowText(w, ReturnedNames(body), AllStatements(body)) && EffectsKeepNames(w, ReturnedNames(body))
    requires Run(body, env, w, fuel).Returned?
    ensures var evidence := EvidenceOf(body, kindSource).value;
      var values := Run(body, env, w, fuel).values;
      && |values| == 1 && Bears(values[0], evidence, w)
      && ('\\' !in evidence.kind ==> values[0].fields["Kind"] == Text(evidence.kind))
  {
    hide Run, Steps, AllStatements, WritesBear, ReturnsBound, EffectsFollowText, Spells, EvidenceOf;
    var evidence := EvidenceOf(body, kindSource).value;
    var t := Setting(ReturnedNames(body), AllStatements(body), evidence);
    forall r | r in OwnReturns(body)
      ensures ReturnFits(r, t)
    {
      ReturnOfEvidenceFits(body, kindSource, r);
    }
    RunEndsWell(body, entry, env, t, w, fuel);
    KindIsNotBlank(body, kindSource);
    var values := Run(body, env, w, fuel).values;
    if '\\' !in evidence.kind {
      SpelledPlainly(values[0].fields["Kind"], evidence.kind, w);
    }
  }

  lemma ReturnOfEvidenceFits(body: seq<Stmt>, kindSource: Option<string>, results: seq<Expr>)
    requires EvidenceOf(body, kindSource).Some? && results in OwnReturns(body)
    ensures |results| == 1 && (results[0].Ident? || LiteralBears(results[0], EvidenceOf(body, kindSource).value))
  {
    hide Steps, StatusFields, LiteralText, OwnReturns;
    ReturnsAreSteps(body);
    EveryReturnAgrees(Steps(body), results);
  }

  lemma {:induction false} GatheredKindsAreNotBlank(steps: seq<Step>)
    ensures "" !in Gathered(steps).kinds
  {
    hide StatusFields, LiteralText, LiteralOf, SourceName;
    if steps != [] {
      GatheredKindsAreNotBlank(steps[..|steps| - 1]);
    }
  }

  lemma KindIsNotBlank(body: seq<Stmt>, kindSource: Option<string>)
    ensures EvidenceOf(body, kindSource).Some? ==> EvidenceOf(body, kindSource).value.kind != ""
  {
    hide Gathered, Steps;
    GatheredKindsAreNotBlank(Steps(body));
  }

  lemma {:induction false} LiteralReturnsAreBound(ss: seq<Stmt>, bound: set<string>)
    requires forall r: seq<Expr> :: r in OwnReturns(ss) ==> |r| == 1 && !r[0].Ident?
    ensures ReturnsBound(ss, bound)
    decreases ss, 1
  {
    if ss != [] {
      LiteralReturnsOfAreBound(ss[0], bound);
      LiteralReturnsAreBound(ss[1..], BoundAfterOf(ss[0], bound));
    }
  }

  lemma {:induction false} LiteralReturnsOfAreBound(s: Stmt, bound: set<string>)
    requires forall r: seq<Expr> :: r in OwnReturnsOf(s) ==> |r| == 1 && !r[0].Ident?
    ensures ReturnsBoundOf(s, bound)
    decreases s, 0
  {
    match s
    case Block(body) => LiteralReturnsAreBound(body, bound);
    case If(_, yes, no) =>
      LiteralReturnsAreBound(yes, bound);
      LiteralReturnsAreBound(no, bound);
    case For(_, body) => LiteralReturnsAreBound(body, bound);
    case _ =>
  }

  /** In particular, evidence is sound whatever else happens when every return statement gives a literal. */
  lemma DirectEvidenceIsSound(body: seq<Stmt>, kindSource: Option<string>, env: Env, w: World, fuel: nat)
    requires EvidenceOf(body, kindSource).Some?
    requires forall r: seq<Expr> :: r in OwnReturns(body) && |r| == 1 ==> !r[0].Ident?
    requires Run(body, env, w, fuel).Returned?
    ensures var evidence := EvidenceOf(body, kindSource).value;
      var values := Run(body, env, w, fuel).values;
      && |values| == 1 && Bears(values[0], evidence, w)
      && ('\\' !in evidence.kind ==> values[0].fields["Kind"] == Text(evidence.kind))
  {
    hide Run, Steps, AllStatements, OwnReturns, EvidenceOf, Bears;
    forall r: seq<Expr> | r in OwnReturns(body)
      ensures |r| == 1 && !r[0].Ident?
    {
      ReturnOfEvidenceFits(body, kindSource, r);
    }
    LiteralReturnsAreBound(body, {});
    assert ReturnedNames(body) == {};
    EvidenceIsSound(body, kindSource, {}, env, w, fuel);
  }

  // ----- When executions do not bear the evidence out -----

  /** Whatever the program around it does within the text, each execution that returns yields a status of this kind. */
  ghost predicate RightInEveryRun(body: seq<Stmt>, kind: string) {
    forall w, env, fuel: nat :: StaysWithinText(w, body) && Run(body, env, w, fuel).Returned? ==>
      YieldsKind(Run(body, env, w, fuel).values, Text(kind))
  }

  ghost predicate StaysWithinText(w: World, body: seq<Stmt>) {
    EffectsFollowText(w, ReturnedNames(body), AllStatements(body)) && EffectsKeepNames(w, ReturnedNames(body))
  }

  predicate YieldsKind(values: seq<Value>, kind: Value) {
    |values| == 1 && values[0].Status? && "Kind" in values[0].fields && values[0].fields["Kind"] == kind
  }

  /** A world in which every condition is false and nothing has an effect. */
  function QuietWorld(): World {
    World((e, env) => false, (e, env) => Opaque(0), (e, env) => env, s => ("", 1))
  }

  lemma QuietWorldStaysWithinText(body: seq<Stmt>)
    ensures StaysWithinText(QuietWorld(), body)
  {
    hide ReturnedNames, AllStatements;
  }

  lemma RightMeans(body: seq<Stmt>, kind: string, w: World, env: Env, fuel: nat, found: Value)
    requires RightInEveryRun(body, kind) && StaysWithinText(w, body)
    requires Run(body, env, w, fuel).Returned? && YieldsKind(Run(body, env, w, fuel).values, found)
    ensures found == Text(kind)
  {
    hide Run, StaysWithinText;
    assert YieldsKind(Run(body, env, w, fuel).values, Text(kind));
  }

  /** If two executions return statuses of different kinds, no evidence is right about the body. */
  lemma TwoKindsRefuteAnyEvidence(body: seq<Stmt>, kind: string, w: World, env: Env, fuel: nat, w': World, env': Env, fuel': nat,
                                  one: Value, other: Value)
    requires StaysWithinText(w, body) && Run(body, env, w, fuel).Returned? && YieldsKind(Run(body, env, w, fuel).values, one)
    requires StaysWithinText(w', body) && Run(body, env', w', fuel').Returned? && YieldsKind(Run(body, env', w', fuel').values, other)
    requires one != other
    ensures !RightInEveryRun(body, kind)
  {
    hide Run, StaysWithinText, RightInEveryRun, YieldsKind;
    if RightInEveryRun(body, kind) {
      RightMeans(body, kind, w, env, fuel, one);
      RightMeans(body, kind, w', env', fuel', other);
      assert false;
    }
  }

  /** A status literal that names a kind plainly and no source, and holds no closure. */
  predicate SimpleLiteral(literal: Expr) {
    && IsStatusLiteral(literal) && StatementsIn(literal) == []
    && KindOf(literal).Some? && '\\' !in KindOf(literal).value && "Source" !in StatusFields(literal.elements)
  }

  lemma SimpleLiteralMeans(literal: Expr, env: Env, w: World)
    requires SimpleLiteral(literal)
    ensures YieldsKind([Eval(literal, env, w)], Text(KindOf(literal).value)) && LiteralBears(literal, Evidence(KindOf(literal).value, ""))
  {
    hide StatusFields, LiteralText, Spells, StatementsIn;
    var evidence := Evidence(KindOf(literal).value, "");
    LiteralBearsEvidence(literal, evidence, env, w);
    SpelledPlainly(Eval(literal, env, w).fields["Kind"], evidence.kind, w);
  }

  /** A variable set to one literal, and on one branch to another, then returned. */
  function BranchBody(name: string, first: Expr, second: Expr, condition: Expr): seq<Stmt> {
    [Assign(name, first), If(condition, [Assign(name, second)], []), Return([Ident(name)])]
  }

  lemma BranchSteps(name: string, first: Expr, second: Expr, condition: Expr)
    requires IsStatusLiteral(first) && IsStatusLiteral(second)
    ensures Steps(BranchBody(name, first, second, condition)) == [Binds(name, first), Binds(name, second), Gives([Ident(name)])]
  {
    hide IsStatusLiteral;
    var body := BranchBody(name, first, second, condition);
    var branch: seq<Stmt> := [Assign(name, second)];
    assert body[1..] == [body[1], body[2]] && body[1..][1..] == [body[2]];
    assert branch[1..] == [];
    assert Steps(branch) == [Binds(name, second)];
    assert Steps([body[2]]) == [Gives([Ident(name)])];
    assert StepsOf(body[1]) == [Binds(name, second)];
    assert Steps(body[1..]) == [Binds(name, second)] + [Gives([Ident(name)])];
  }

  lemma OwnReturnsOfOne(s: Stmt)
    ensures OwnReturns([s]) == OwnReturnsOf(s)
  {
    assert [s][1..] == [];
    assert OwnReturns([s]) == OwnReturnsOf([s][0]) + OwnReturns([]);
  }

  lemma BranchReturns(name: string, first: Expr, second: Expr, condition: Expr)
    ensures OwnReturns(BranchBody(name, first, second, condition)) == [[Ident(name)]]
    ensures ReturnsBound(BranchBody(name, first, second, condition), {})
  {
    var body := BranchBody(name, first, second, condition);
    var branch: seq<Stmt> := [Assign(name, second)];
    assert body[1..] == [body[1], body[2]] && body[1..][1..] == [body[2]] && body[1..][1..][1..] == [];
    assert branch[1..] == [];
    OwnReturnsOfOne(branch[0]);
    OwnReturnsOfOne(body[2]);
    assert OwnReturnsOf(body[1]) == [];
    assert OwnReturns(body[1..]) == [[Ident(name)]];
    assert ReturnsBoundOf(branch[0], {name}) && ReturnsBound([], BoundAfterOf(branch[0], {name}));
    assert ReturnsBound(branch, {name}) && ReturnsBound([], {name});
    assert {} + {name} == {name} && BoundAfterOf(body[0], {}) == {name};
    BoundGrows(body[1], {name});
    assert ReturnsBound(body[1..][1..], BoundAfterOf(body[1], {name}));
    assert ReturnsBound(body[1..], {name});
  }

  lemma BranchStatements(name: string, first: Expr, second: Expr, condition: Expr)
    requires StatementsIn(first) == [] && StatementsIn(second) == [] && StatementsIn(condition) == []
    ensures var body := BranchBody(name, first, second, condition);
      forall s :: s in AllStatements(body) ==> s in body || s == Assign(name, second)
  {
    hide Steps, OwnReturns;
    var body := BranchBody(name, first, second, condition);
    var branch: seq<Stmt> := [Assign(name, second)];
    var results: seq<Expr> := [Ident(name)];
    assert body[1..] == [body[1], body[2]] && body[1..][1..] == [body[2]] && body[1..][1..][1..] == [];
    assert branch[1..] == [] && results[1..] == [];
    assert StatementsOf(body[0]) == [body[0]];
    assert AllStatements(branch) == branch;
    assert StatementsOf(body[1]) == [body[1]] + branch;
    assert StatementsInAll(results) == [] && StatementsOf(body[2]) == [body[2]];
    assert AllStatements(body[1..][1..]) == [body[2]];
    assert AllStatements(body[1..]) == [body[1]] + branch + [body[2]];
  }

  lemma BranchEvidence(name: string, first: Expr, second: Expr, condition: Expr)
    requires SimpleLiteral(first) && SimpleLiteral(second) && StatementsIn(condition) == []
    ensures EvidenceOf(BranchBody(name, first, second, condition), None) == Some(Evidence(KindOf(second).value, ""))
  {
    hide StatusFields, LiteralText, StatementsIn, BranchBody, KindOf;
    var steps := [Binds(name, first), Binds(name, second), Gives([Ident(name)])];
    BranchSteps(name, first, second, condition);
    assert steps[..2][..1] == [Binds(name, first)] && steps[..2] == [Binds(name, first), Binds(name, second)];
    assert Gathered([]) == Gathering(map[], [], "", true);
    assert Gathered([Binds(name, first)]) == Gathering(map[name := first], [], "", true);
    assert Gathered(steps[..2]) == Gathering(map[name := second], [], "", true);
    assert Gathered(steps) == Gathering(map[name := second], [KindOf(second).value], "", true);
  }

  lemma QuietBranchRun(name: string, first: Expr, second: Expr, condition: Expr)
    ensures Run(BranchBody(name, first, second, condition), map[], QuietWorld(), 5) == Returned([Eval(first, map[], QuietWorld())])
  {
    hide Eval;
    var body, w := BranchBody(name, first, second, condition), QuietWorld();
    var set1: Env := map[name := Eval(first, map[], w)];
    assert Execute(body[0], map[], w, 4) == Fell(set1);
    assert body[1..] == [body[1], body[2]] && body[1..][1..] == [body[2]];
    assert Execute(body[1], set1, w, 3) == Fell(set1);
    IdentValue(name, set1, w);
    assert Execute(body[2], set1, w, 2) == Returned([set1[name]]);
  }

  lemma IdentValue(name: string, env: Env, w: World)
    requires name in env
    ensures Eval(Ident(name), env, w) == env[name]
  {
  }

  /** The traversal does not see branches: it names the kind of the literal set last in the text. For a variable
      set again on one branch that is right in every execution exactly when both literals name one kind. */
  lemma BranchEvidenceIsRightExactlyWhenKindsAgree(name: string, first: Expr, second: Expr, condition: Expr)
    requires SimpleLiteral(first) && SimpleLiteral(second) && StatementsIn(condition) == []
    ensures EvidenceOf(BranchBody(name, first, second, condition), None) == Some(Evidence(KindOf(second).value, ""))
    ensures RightInEveryRun(BranchBody(name, first, second, condition), KindOf(second).value) <==> KindOf(first) == KindOf(second)
  {
    hide Run, KindOf, LiteralBears, EffectsFollowText, EffectsKeepNames, Steps, ReturnsBound, AllStatements, EvidenceOf, BranchBody, SimpleLiteral, Spells;
    var body := BranchBody(name, first, second, condition);
    var kind := KindOfSimple(second);
    BranchEvidence(name, first, second, condition);
    if RightInEveryRun(body, kind) {
      var w := QuietWorld();
      QuietWorldStaysWithinText(body);
      QuietBranchRun(name, first, second, condition);
      SimpleLiteralMeans(first, map[], w);
      RightMeans(body, kind, w, map[], 5, Text(KindOfSimple(first)));
    }
    if KindOfSimple(first) == kind {
      BranchWritesBear(name, first, second, condition);
      forall w, env, fuel: nat | StaysWithinText(w, body) && Run(body, env, w, fuel).Returned?
        ensures YieldsKind(Run(body, env, w, fuel).values, Text(kind))
      {
        EvidenceIsSound(body, None, {}, env, w, fuel);
      }
    }
  }

  function KindOfSimple(literal: Expr): (kind: string)
    requires SimpleLiteral(literal)
    ensures KindOf(literal) == Some(kind) && '\\' !in kind
  {
    KindOf(literal).value
  }

  lemma BranchWritesBear(name: string, first: Expr, second: Expr, condition: Expr)
    requires SimpleLiteral(first) && SimpleLiteral(second) && StatementsIn(condition) == [] && KindOf(first) == KindOf(second)
    ensures var body := BranchBody(name, first, second, condition);
      && WritesBear(AllStatements(body), ReturnedNames(body), Evidence(KindOf(second).value, "")) && ReturnsBound(body, {})
  {
    hide KindOf, LiteralBears, Steps, AllStatements, OwnReturns, ReturnsBound, StatementsIn;
    BranchReturns(name, first, second, condition);
    BranchStatements(name, first, second, condition);
    SimpleLiteralMeans(first, map[], QuietWorld());
    SimpleLiteralMeans(second, map[], QuietWorld());
  }

  /** A variable set to a literal, its kind set again as a field, then returned. */
  function FieldBody(name: string, literal: Expr, text: LiteralBody): seq<Stmt> {
    [Assign(name, literal), AssignField(name, "Kind", StringLit(text)), Return([Ident(name)])]
  }

  lemma FieldEvidence(name: string, literal: Expr, text: LiteralBody)
    requires SimpleLiteral(literal)
    ensures EvidenceOf(FieldBody(name, literal, text), None) == Some(Evidence(KindOfSimple(literal), ""))
  {
    hide StatusFields, LiteralText, StatementsIn, KindOf;
    var body, steps := FieldBody(name, literal, text), [Binds(name, literal), Gives([Ident(name)])];
    assert body[1..] == [body[1], body[2]] && body[1..][1..] == [body[2]] && body[1..][1..][1..] == [];
    assert Steps([body[2]]) == [Gives([Ident(name)])] && Steps(body[1..]) == [Gives([Ident(name)])];
    assert Steps(body) == steps;
    assert steps[..1] == [Binds(name, literal)];
    assert Gathered([]) == Gathering(map[], [], "", true);
    assert Gathered([Binds(name, literal)]) == Gathering(map[name := literal], [], "", true);
    assert Gathered(steps) == Gathering(map[name := literal], [KindOf(literal).value], "", true);
  }

  lemma FieldTexts(name: string, literal: Expr, text: LiteralBody)
    requires StatementsIn(literal) == []
    ensures OwnReturns(FieldBody(name, literal, text)) == [[Ident(name)]]
    ensures forall s :: s in AllStatements(FieldBody(name, literal, text)) ==> s in FieldBody(name, literal, text)
  {
    hide AllStatements, StatementsIn;
    var body := FieldBody(name, literal, text);
    assert body[1..] == [body[1], body[2]] && body[1..][1..] == [body[2]] && body[1..][1..][1..] == [];
    OwnReturnsOfOne(body[2]);
    assert OwnReturns(body[1..]) == [[Ident(name)]];
    FieldStatements(name, literal, text);
  }

  lemma FieldStatements(name: string, literal: Expr, text: LiteralBody)
    requires StatementsIn(literal) == []
    ensures forall s :: s in AllStatements(FieldBody(name, literal, text)) ==> s in FieldBody(name, literal, text)
  {
    var body := FieldBody(name, literal, text);
    assert body[1..] == [body[1], body[2]] && body[1..][1..] == [body[2]] && body[1..][1..][1..] == [];
    SetsAndReturns(name, literal, text);
    assert AllStatements([body[2]]) == [body[2]];
    assert AllStatements(body[1..]) == [body[1], body[2]];
  }

  lemma SetsAndReturns(name: string, literal: Expr, text: LiteralBody)
    requires StatementsIn(literal) == []
    ensures StatementsOf(Assign(name, literal)) == [Assign(name, literal)]
    ensures StatementsOf(AssignField(name, "Kind", StringLit(text))) == [AssignField(name, "Kind", StringLit(text))]
    ensures StatementsOf(Return([Ident(name)])) == [Return([Ident(name)])]
  {
    var results: seq<Expr> := [Ident(name)];
    assert results[1..] == [] && StatementsIn(results[0]) == [];
    assert StatementsInAll(results) == [];
  }

  /** Setting the kind field wins over the literal in every execution. */
  lemma FieldRun(name: string, literal: Expr, text: LiteralBody, w: World, env: Env, fuel: nat)
    requires SimpleLiteral(literal) && StaysWithinText(w, FieldBody(name, literal, text))
    requires Run(FieldBody(name, literal, text), env, w, fuel).Returned?
    ensures YieldsKind(Run(FieldBody(name, literal, text), env, w, fuel).values, Text(Unquote(text, w.escape)))
  {
    hide SimpleLiteral, Eval, Unquote, EvalFields, StatementsIn, OwnReturns, AllStatements;
    var body := FieldBody(name, literal, text);
    SimpleLiteralIsPlain(literal);
    FieldTexts(name, literal, text);
    var set1 := w.effect(literal, env)[name := Eval(literal, env, w)];
    var after := w.effect(StringLit(text), set1);
    SimpleLiteralYields(literal, env, w);
    StaysStatus(name, literal, text, w, set1);
    StringValue(text, set1, w);
    var set2 := SetField(after, name, "Kind", Text(Unquote(text, w.escape)));
    assert fuel >= 4 by {
      ShortRunDoesNotReturn(body, env, w, fuel);
    }
    assert Execute(body[0], env, w, fuel - 1) == Fell(set1);
    assert body[1..] == [body[1], body[2]] && body[1..][1..] == [body[2]];
    assert Execute(body[1], set1, w, fuel - 2) == Fell(set2);
    IdentValue(name, set2, w);
    assert Execute(body[2], set2, w, fuel - 3) == Returned([set2[name]]);
    assert Run([body[2]], set2, w, fuel - 2) == Returned([set2[name]]);
    assert Run(body[1..], set1, w, fuel - 1) == Returned([set2[name]]);
  }

  lemma ShortRunDoesNotReturn(body: seq<Stmt>, env: Env, w: World, fuel: nat)
    requires |body| == 3 && body[0].Assign? && body[1].AssignField? && body[2].Return?
    ensures Run(body, env, w, fuel).Returned? ==> fuel >= 4
  {
    hide Eval, SetField;
    assert body[1..][0] == body[1] && body[1..][1..][0] == body[2];
  }

  lemma SimpleLiteralIsPlain(literal: Expr)
    requires SimpleLiteral(literal)
    ensures StatementsIn(literal) == []
  {
  }

  lemma SimpleLiteralYields(literal: Expr, env: Env, w: World)
    requires SimpleLiteral(literal)
    ensures Eval(literal, env, w).Status?
  {
    SimpleLiteralMeans(literal, env, w);
  }

  lemma StringValue(text: LiteralBody, env: Env, w: World)
    ensures Eval(StringLit(text), env, w) == Text(Unquote(text, w.escape))
  {
  }

  /** Evaluating the field's new text leaves a status in the variable. */
  lemma StaysStatus(name: string, literal: Expr, text: LiteralBody, w: World, env: Env)
    requires SimpleLiteral(literal) && StaysWithinText(w, FieldBody(name, literal, text)) && name in env && env[name].Status?
    ensures name in w.effect(StringLit(text), env) && w.effect(StringLit(text), env)[name].Status?
  {
    hide SimpleLiteral, Eval, StatementsIn, OwnReturns, AllStatements;
    SimpleLiteralIsPlain(literal);
    FieldTexts(name, literal, text);
    var body, after := FieldBody(name, literal, text), w.effect(StringLit(text), env);
    assert name in ReturnedNames(body) by {
      assert [Ident(name)] in OwnReturns(body);
    }
    if !SameEvidence(env[name], after[name]) {
      var other, env' :| Assign(name, other) in AllStatements(body) && SameEvidence(Eval(other, env', w), after[name]);
      assert other == literal;
      SimpleLiteralYields(literal, env', w);
    }
  }

  /** The traversal does not see fields set after the literal either: its evidence is right in every execution
      exactly when the field is set to the kind it had. */
  lemma FieldEvidenceIsRightExactlyWhenKindStays(name: string, literal: Expr, text: LiteralBody)
    requires SimpleLiteral(literal) && '\\' !in text
    ensures EvidenceOf(FieldBody(name, literal, text), None) == Some(Evidence(KindOfSimple(literal), ""))
    ensures RightInEveryRun(FieldBody(name, literal, text), KindOfSimple(literal)) <==> text == KindOfSimple(literal)
  {
    hide Run, StaysWithinText, EvidenceOf, FieldBody, SimpleLiteral, YieldsKind, Unquote, KindOf;
    var body, w := FieldBody(name, literal, text), QuietWorld();
    FieldEvidence(name, literal, text);
    QuietWorldStaysWithinText(body);
    FieldQuietRun(name, literal, text);
    FieldRun(name, literal, text, w, map[], 4);
    UnquoteKeepsPlainText(text, w.escape);
    if RightInEveryRun(body, KindOfSimple(literal)) {
      RightMeans(body, KindOfSimple(literal), w, map[], 4, Text(text));
    }
    if text == KindOfSimple(literal) {
      forall w, env, fuel: nat | StaysWithinText(w, body) && Run(body, env, w, fuel).Returned?
        ensures YieldsKind(Run(body, env, w, fuel).values, Text(KindOfSimple(literal)))
      {
        FieldRun(name, literal, text, w, env, fuel);
        UnquoteKeepsPlainText(text, w.escape);
      }
    }
  }

  lemma FieldQuietRun(name: string, literal: Expr, text: LiteralBody)
    ensures Run(FieldBody(name, literal, text), map[], QuietWorld(), 4).Returned?
  {
    hide Eval, SetField;
    var body, w := FieldBody(name, literal, text), QuietWorld();
    var set1: Env := map[name := Eval(literal, map[], w)];
    assert Execute(body[0], map[], w, 3) == Fell(set1);
    assert body[1..] == [body[1], body[2]] && body[1..][1..] == [body[2]];
    assert Execute(body[1], set1, w, 2).Fell?;
  }
}
