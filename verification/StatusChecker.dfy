/** The analyser of archive providers: what it demands of the Kind and Status methods it finds, and
    a small-language semantics against which those demands are judged. */
module StatusChecker {
  import opened Text

  // ----- Syntax -----

  /** The inside of an interpreted string literal: a quote in it is escaped. */
  type LiteralBody = b: string | forall i :: 0 <= i < |b| && b[i] == '"' ==> i > 0 && b[i - 1] == '\\'

  datatype Expr =
    | Ident(name: string)
    | StringLit(inside: LiteralBody)
    | OtherLit(text: string)
    | Selector(x: Expr, sel: string)
    | Star(x: Expr)
    | Index(x: Expr)
    | Composite(typ: Option<Expr>, elements: seq<Element>)
    | FuncLit(body: seq<Stmt>)
    | Operation(operands: seq<Expr>)

  datatype Element = KeyValue(key: Expr, value: Expr) | Positional(value: Expr)

  datatype Stmt =
    | Block(body: seq<Stmt>)
    | If(cond: Expr, yes: seq<Stmt>, no: seq<Stmt>)
    | For(guard: Option<Expr>, body: seq<Stmt>)
    | Assign(name: string, value: Expr)
    | AssignField(name: string, field: string, value: Expr)
    | Evaluate(e: Expr)
    | Return(results: seq<Expr>)
    | Break
    | Continue

  const PROVIDERS := "providers"

  function ProvidersName(name: string): Expr {
    Selector(Ident(PROVIDERS), name)
  }

  // ----- Return statements -----

  /** The return statements of a function itself, in order, without those of closures. */
  function OwnReturns(ss: seq<Stmt>): seq<seq<Expr>>
    decreases ss, 1
  {
    if ss == [] then [] else OwnReturnsOf(ss[0]) + OwnReturns(ss[1..])
  }

  function OwnReturnsOf(s: Stmt): seq<seq<Expr>>
    decreases s, 0
  {
    match s
    case Block(body) => OwnReturns(body)
    case If(_, yes, no) => OwnReturns(yes) + OwnReturns(no)
    case For(_, body) => OwnReturns(body)
    case Return(results) => [results]
    case _ => []
  }

  /** Every statement below a node, closures included, in the order a full traversal meets them. */
  function AllStatements(ss: seq<Stmt>): seq<Stmt>
    decreases ss, 1
  {
    if ss == [] then [] else StatementsOf(ss[0]) + AllStatements(ss[1..])
  }

  function StatementsOf(s: Stmt): seq<Stmt>
    decreases s, 0
  {
    [s] +
    match s {
      case Block(body) => AllStatements(body)
      case If(cond, yes, no) => StatementsIn(cond) + AllStatements(yes) + AllStatements(no)
      case For(guard, body) => (if guard.Some? then StatementsIn(guard.value) else []) + AllStatements(body)
      case Assign(_, value) => StatementsIn(value)
      case AssignField(_, _, value) => StatementsIn(value)
      case Evaluate(e) => StatementsIn(e)
      case Return(results) => StatementsInAll(results)
      case _ => []
    }
  }

  function StatementsIn(e: Expr): seq<Stmt>
    decreases e, 0
  {
    match e
    case Selector(x, _) => StatementsIn(x)
    case Star(x) => StatementsIn(x)
    case Index(x) => StatementsIn(x)
    case Composite(typ, elements) => (if typ.Some? then StatementsIn(typ.value) else []) + StatementsInElements(elements)
    case FuncLit(body) => AllStatements(body)
    case Operation(operands) => StatementsInAll(operands)
    case _ => []
  }

  function StatementsInAll(es: seq<Expr>): seq<Stmt>
    decreases es, 1
  {
    if es == [] then [] else StatementsIn(es[0]) + StatementsInAll(es[1..])
  }

  function StatementsInElements(es: seq<Element>): seq<Stmt>
    decreases es, 1
  {
    if es == [] then [] else StatementsInElement(es[0]) + StatementsInElements(es[1..])
  }

  function StatementsInElement(e: Element): seq<Stmt>
    decreases e, 0
  {
    match e
    case KeyValue(key, value) => StatementsIn(key) + StatementsIn(value)
    case Positional(value) => StatementsIn(value)
  }

  function ReturnsAmong(ss: seq<Stmt>): (rs: seq<seq<Expr>>)
    ensures forall r :: r in rs <==> Return(r) in ss
  {
    if ss == [] then [] else (if ss[0].Return? then [ss[0].results] else []) + ReturnsAmong(ss[1..])
  }

  /** Every return statement below a node, closures included, as a full traversal meets them. */
  function AllReturns(ss: seq<Stmt>): seq<seq<Expr>> {
    ReturnsAmong(AllStatements(ss))
  }

  lemma {:induction false} OwnReturnsAreMet(ss: seq<Stmt>)
    ensures forall r :: r in OwnReturns(ss) ==> r in AllReturns(ss)
    decreases ss, 1
  {
    if ss != [] {
      OwnReturnsOfAreMet(ss[0]);
      OwnReturnsAreMet(ss[1..]);
    }
  }

  lemma {:induction false} OwnReturnsOfAreMet(s: Stmt)
    ensures forall r :: r in OwnReturnsOf(s) ==> Return(r) in StatementsOf(s)
    decreases s, 0
  {
    match s
    case Block(body) => OwnReturnsAreMet(body);
    case If(_, yes, no) =>
      OwnReturnsAreMet(yes);
      OwnReturnsAreMet(no);
    case For(_, body) => OwnReturnsAreMet(body);
    case _ =>
  }

  // ----- Meaning -----

  datatype Value = Const(name: string) | Text(text: string) | Status(fields: map<string, Value>) | Opaque(id: int)

  type Env = map<string, Value>

  /** Everything the language leaves open: what conditions and other expressions evaluate to, what
      evaluating them does to the variables, and what an escape sequence stands for (with its length). */
  datatype World = World(
    truth: (Expr, Env) -> bool,
    other: (Expr, Env) -> Value,
    effect: (Expr, Env) -> Env,
    escape: string -> (string, nat))

  function Unquote(body: string, escape: string -> (string, nat)): string
    decreases |body|
  {
    if body == "" then ""
    else if body[0] != '\\' then [body[0]] + Unquote(body[1..], escape)
    else
      var (meaning, length) := escape(body);
      var taken := if length < 1 then 1 else if length > |body| then |body| else length;
      meaning + Unquote(body[taken..], escape)
  }

  function Eval(e: Expr, env: Env, w: World): Value
    decreases e, 0
  {
    match e
    case StringLit(body) => Text(Unquote(body, w.escape))
    case Ident(name) => if name in env then env[name] else w.other(e, env)
    case Selector(Ident(package), sel) => if package == PROVIDERS then Const(sel) else w.other(e, env)
    case Composite(typ, elements) =>
      if typ == Some(ProvidersName("Status")) then Status(EvalFields(elements, env, w)) else w.other(e, env)
    case _ => w.other(e, env)
  }

  function EvalFields(elements: seq<Element>, env: Env, w: World): map<string, Value>
    decreases elements, 1
  {
    if elements == [] then map[]
    else
      var last := elements[|elements| - 1];
      var before := EvalFields(elements[..|elements| - 1], env, w);
      if last.KeyValue? && last.key.Ident? then before[last.key.name := EvalField(last, env, w)] else before
  }

  function EvalField(e: Element, env: Env, w: World): Value
    decreases e, 1
  {
    Eval(e.value, env, w)
  }

  datatype Outcome = Fell(env: Env) | Broke(env: Env) | Continued(env: Env) | Returned(values: seq<Value>) | Unfinished

  function EvalAll(es: seq<Expr>, env: Env, w: World): (vs: seq<Value>)
    ensures |vs| == |es| && forall i :: 0 <= i < |es| ==> vs[i] == Eval(es[i], env, w)
  {
    seq(|es|, i requires 0 <= i < |es| => Eval(es[i], env, w))
  }

  /** A field is set in a status; anything else that a selector on the left may mean is left open as an effect. */
  function SetField(env: Env, name: string, field: string, value: Value): Env {
    if name in env && env[name].Status? then env[name := Status(env[name].fields[field := value])] else env
  }

  /** Execute statements. `fuel` bounds the depth of the execution, so that a run that goes on is Unfinished. */
  function Run(ss: seq<Stmt>, env: Env, w: World, fuel: nat): Outcome
    decreases fuel
  {
    if fuel == 0 then Unfinished
    else if ss == [] then Fell(env)
    else
      var first := Execute(ss[0], env, w, fuel - 1);
      if first.Fell? then Run(ss[1..], first.env, w, fuel - 1) else first
  }

  function Execute(s: Stmt, env: Env, w: World, fuel: nat): Outcome
    decreases fuel
  {
    if fuel == 0 then Unfinished
    else
      match s
      case Block(body) => Run(body, env, w, fuel - 1)
      case If(cond, yes, no) => Run(if w.truth(cond, env) then yes else no, w.effect(cond, env), w, fuel - 1)
      case For(cond, body) =>
        var after := if cond.Some? then w.effect(cond.value, env) else env;
        if cond.Some? && !w.truth(cond.value, env) then Fell(after)
        else
          var once := Run(body, after, w, fuel - 1);
          (match once
           case Fell(env') => Execute(s, env', w, fuel - 1)
           case Continued(env') => Execute(s, env', w, fuel - 1)
           case Broke(env') => Fell(env')
           case _ => once)
      case Assign(name, value) => Fell(w.effect(value, env)[name := Eval(value, env, w)])
      case AssignField(name, field, value) => Fell(SetField(w.effect(value, env), name, field, Eval(value, env, w)))
      case Evaluate(e) => Fell(w.effect(e, env))
      case Return(results) => Returned(EvalAll(results, env, w))
      case Break => Broke(env)
      case Continue => Continued(env)
  }

  /** The values are what one of these return statements yields in some environment. */
  ghost predicate YieldedBy(values: seq<Value>, statements: seq<seq<Expr>>, w: World) {
    exists r, env :: r in statements && values == EvalAll(r, env, w)
  }

  lemma YieldedByMore(values: seq<Value>, some: seq<seq<Expr>>, more: seq<seq<Expr>>, w: World)
    requires YieldedBy(values, some, w) && forall r :: r in some ==> r in more
    ensures YieldedBy(values, more, w)
  {
    var r, env :| r in some && values == EvalAll(r, env, w);
    assert r in more;
  }

  /** Whatever branches and loops an execution goes through, it returns what one of the function's own
      return statements yields. */
  lemma {:induction false} RunReturnsAnOwnReturn(ss: seq<Stmt>, env: Env, w: World, fuel: nat)
    requires Run(ss, env, w, fuel).Returned?
    ensures YieldedBy(Run(ss, env, w, fuel).values, OwnReturns(ss), w)
    decreases fuel
  {
    hide YieldedBy;
    var first := Execute(ss[0], env, w, fuel - 1);
    if first.Fell? {
      RunReturnsAnOwnReturn(ss[1..], first.env, w, fuel - 1);
      YieldedByMore(Run(ss, env, w, fuel).values, OwnReturns(ss[1..]), OwnReturns(ss), w);
    } else {
      ExecuteReturnsAnOwnReturn(ss[0], env, w, fuel - 1);
      YieldedByMore(first.values, OwnReturnsOf(ss[0]), OwnReturns(ss), w);
    }
  }

  lemma {:induction false} ExecuteReturnsAnOwnReturn(s: Stmt, env: Env, w: World, fuel: nat)
    requires Execute(s, env, w, fuel).Returned?
    ensures YieldedBy(Execute(s, env, w, fuel).values, OwnReturnsOf(s), w)
    decreases fuel
  {
    match s {
      case Block(body) =>
        RunReturnsAnOwnReturn(body, env, w, fuel - 1);
      case If(cond, yes, no) =>
        var branch := if w.truth(cond, env) then yes else no;
        RunReturnsAnOwnReturn(branch, w.effect(cond, env), w, fuel - 1);
        YieldedByMore(Execute(s, env, w, fuel).values, OwnReturns(branch), OwnReturnsOf(s), w);
      case For(cond, body) =>
        var after := if cond.Some? then w.effect(cond.value, env) else env;
        var once := Run(body, after, w, fuel - 1);
        if once.Returned? {
          RunReturnsAnOwnReturn(body, after, w, fuel - 1);
        } else {
          ExecuteReturnsAnOwnReturn(s, once.env, w, fuel - 1);
        }
      case Return(results) =>
        assert results in [results];
        assert Execute(s, env, w, fuel).values == EvalAll(results, env, w);
    }
  }

  // ----- What the analyser demands of a literal -----

  predicate IsStatusType(typ: Option<Expr>) {
    typ == Some(ProvidersName("Status"))
  }

  /** statusFields: the keyed fields, the last one winning. */
  function StatusFields(elements: seq<Element>): map<string, Expr> {
    if elements == [] then map[]
    else
      var last := elements[|elements| - 1];
      var before := StatusFields(elements[..|elements| - 1]);
      if last.KeyValue? && last.key.Ident? then before[last.key.name := last.value] else before
  }

  predicate IsStateLimitedOrUnavailable(e: Expr) {
    e == ProvidersName("StateLimited") || e == ProvidersName("StateUnavailable")
  }

  predicate IsSelector(e: Expr, name: string) {
    e.Selector? && e.sel == name
  }

  function TrimQuotesLeft(s: string): string {
    if s != "" && s[0] == '"' then TrimQuotesLeft(s[1..]) else s
  }

  function TrimQuotesRight(s: string): (r: string)
    ensures r <= s && forall i :: |r| <= i < |s| ==> s[i] == '"'
  {
    if s != "" && s[|s| - 1] == '"' then TrimQuotesRight(s[..|s| - 1]) else s
  }

  /** stringLiteral: the text between the quotes, with no regard to escapes. */
  function LiteralText(e: Expr): Option<string> {
    if e.StringLit? then Some(TrimQuotesRight(TrimQuotesLeft("\"" + e.inside + "\""))) else None
  }

  const CODE_UNIMPLEMENTED := "archive.getchatdata_unimplemented"
  const CODE_BRIDGE_READY := "archive.bridge_ready"

  /** A return statement the analyser has no objection to. */
  predicate ReturnAccepted(results: seq<Expr>, bridge: bool) {
    && |results| == 1 && results[0].Composite? && IsStatusType(results[0].typ)
    && var fields := StatusFields(results[0].elements);
       && "State" in fields && (IsStateLimitedOrUnavailable(fields["State"]) || (bridge && IsSelector(fields["State"], "StateReady")))
       && "Code" in fields && LiteralText(fields["Code"]).Some? && HasPrefix(LiteralText(fields["Code"]).value, "archive.")
  }

  predicate HasCode(results: seq<Expr>, code: string) {
    && |results| == 1 && results[0].Composite? && IsStatusType(results[0].typ)
    && var fields := StatusFields(results[0].elements);
       "Code" in fields && LiteralText(fields["Code"]) == Some(code)
  }

  /** The value a caller of Status may rely on. */
  ghost predicate HonestStatus(v: Value) {
    && v.Status? && "State" in v.fields && v.fields["State"] in {Const("StateLimited"), Const("StateUnavailable")}
    && "Code" in v.fields && v.fields["Code"].Text? && HasPrefix(v.fields["Code"].text, "archive.")
  }

  lemma {:induction false} FieldsMean(elements: seq<Element>, env: Env, w: World)
    ensures EvalFields(elements, env, w).Keys == StatusFields(elements).Keys
    ensures forall k :: k in StatusFields(elements) ==> EvalFields(elements, env, w)[k] == Eval(StatusFields(elements)[k], env, w)
  {
    if elements != [] {
      FieldsMean(elements[..|elements| - 1], env, w);
    }
  }

  lemma {:induction false} UnquoteKeepsPlainPrefix(body: string, prefix: string, escape: string -> (string, nat))
    requires prefix <= body && '\\' !in prefix
    ensures prefix <= Unquote(body, escape)
  {
    if prefix != "" {
      assert body[0] == prefix[0] && prefix[0] in prefix;
      UnquoteKeepsPlainPrefix(body[1..], prefix[1..], escape);
      assert prefix == [prefix[0]] + prefix[1..];
    }
  }

  /** The text the analyser looks at is the front of what stands between the quotes; only quotes follow. */
  lemma LiteralTextIsFront(e: Expr)
    requires e.StringLit?
    ensures LiteralText(e).value <= e.inside
    ensures forall i :: |LiteralText(e).value| <= i < |e.inside| ==> e.inside[i] == '"'
  {
    var text := "\"" + e.inside + "\"";
    assert text[1..] == e.inside + "\"";
    if e.inside != "" {
      assert e.inside[0] != '"';
      assert TrimQuotesLeft(text) == e.inside + "\"";
      var trimmed := TrimQuotesRight(e.inside + "\"");
      assert |trimmed| <= |e.inside| by {
        assert (e.inside + "\"")[..|e.inside|] == e.inside;
      }
      assert trimmed == (e.inside + "\"")[..|trimmed|] == e.inside[..|trimmed|];
    } else {
      assert TrimQuotesLeft("") == "" && text[1..][1..] == "";
      assert TrimQuotesLeft(text[1..]) == "";
    }
  }

  lemma QuotesAreSomewhere(s: string, n: nat)
    requires n <= |s| && forall i :: n <= i < |s| ==> s[i] == '"'
    ensures n < |s| ==> exists i :: 0 <= i < |s| && s[i] == '"'
  {
    if n < |s| {
      assert s[n] == '"';
    }
  }

  lemma QuoteFreeTextIsItself(e: Expr)
    requires e.StringLit? && forall i :: 0 <= i < |e.inside| ==> e.inside[i] != '"'
    ensures LiteralText(e) == Some(e.inside)
  {
    hide TrimQuotesLeft, TrimQuotesRight;
    LiteralTextIsFront(e);
    QuotesAreSomewhere(e.inside, |LiteralText(e).value|);
    assert LiteralText(e).value == e.inside;
  }

  /** An accepted return outside the bridge yields an honest status in every environment. */
  lemma AcceptedReturnIsHonest(results: seq<Expr>, env: Env, w: World)
    requires ReturnAccepted(results, false)
    ensures |EvalAll(results, env, w)| == 1 && HonestStatus(EvalAll(results, env, w)[0])
  {
    hide LiteralText, Unquote;
    var elements := results[0].elements;
    var fields := StatusFields(elements);
    FieldsMean(elements, env, w);
    var code := fields["Code"];
    assert code.StringLit? by { OnlyLiteralsHaveText(code); }
    LiteralTextIsFront(code);
    PrefixOfPrefix("archive.", LiteralText(code).value, code.inside);
    assert '\\' !in "archive.";
    UnquoteKeepsPlainPrefix(code.inside, "archive.", w.escape);
  }

  lemma OnlyLiteralsHaveText(e: Expr)
    ensures LiteralText(e).Some? ==> e.StringLit?
  {
  }

  lemma PrefixOfPrefix(a: string, b: string, c: string)
    requires a <= b && b <= c
    ensures a <= c
  {
  }

  /** Soundness for Status: if every return statement met below the body is accepted, then every
      execution that returns yields exactly one value, an honest status. */
  lemma AcceptedStatusIsHonest(body: seq<Stmt>, env: Env, w: World, fuel: nat)
    requires forall r :: r in AllReturns(body) ==> ReturnAccepted(r, false)
    requires Run(body, env, w, fuel).Returned?
    ensures var values := Run(body, env, w, fuel).values; |values| == 1 && HonestStatus(values[0])
  {
    hide Run, ReturnAccepted, HonestStatus, AllReturns, OwnReturns;
    RunReturnsAnOwnReturn(body, env, w, fuel);
    OwnReturnsAreMet(body);
    var values := Run(body, env, w, fuel).values;
    var r, e :| r in OwnReturns(body) && values == EvalAll(r, e, w);
    AcceptedReturnIsHonest(r, e, w);
  }

  // ----- Kind -----

  /** What returnedSource answers: one return statement in all, naming a known source, or "unknown". */
  function SourceOfBody(body: Option<seq<Stmt>>): string {
    if body.None? then "unknown"
    else if OwnReturns(body.value) == [[ProvidersName("SourceExternal")]] then "external"
    else if OwnReturns(body.value) == [[ProvidersName("SourceSimulated")]] then "simulated"
    else "unknown"
  }

  /** returnedSource, as the traversal computes it with its two flags. */
  method ReturnedSource(body: Option<seq<Stmt>>) returns (source: string)
    ensures source == SourceOfBody(body)
  {
    if body.None? {
      return "unknown";
    }
    var statements := OwnReturns(body.value);
    var found, valid := "", true;
    for i := 0 to |statements|
      invariant found in {"", "external", "simulated"}
      invariant valid ==> (found == "" <==> i == 0) && i <= 1
      invariant valid && found == "external" ==> statements[..i] == [[ProvidersName("SourceExternal")]]
      invariant valid && found == "simulated" ==> statements[..i] == [[ProvidersName("SourceSimulated")]]
      invariant !valid ==> SourceOfBody(body) == "unknown"
    {
      var r := statements[i];
      if |r| == 1 && r[0].Selector? && r[0].x == Ident(PROVIDERS) && r[0].sel in {"SourceExternal", "SourceSimulated"} {
        if found != "" {
          valid := false;
        }
        found := if r[0].sel == "SourceExternal" then "external" else "simulated";
        assert valid ==> statements[..i + 1] == [r] && r == [r[0]];
      } else {
        assert statements[i] == r;
        valid := false;
      }
    }
    assert statements[..|statements|] == statements;
    source := if !valid || found == "" then "unknown" else found;
  }

  /** Soundness for Kind: the answer "external" means that every execution that returns yields SourceExternal. */
  lemma ExternalKindIsExternal(body: seq<Stmt>, env: Env, w: World, fuel: nat)
    requires Run(body, env, w, fuel).Returned?
    ensures SourceOfBody(Some(body)) == "external" ==> Run(body, env, w, fuel).values == [Const("SourceExternal")]
    ensures SourceOfBody(Some(body)) == "simulated" ==> Run(body, env, w, fuel).values == [Const("SourceSimulated")]
  {
    hide Run, OwnReturns;
    RunReturnsAnOwnReturn(body, env, w, fuel);
    var values := Run(body, env, w, fuel).values;
    var r, e :| r in OwnReturns(body) && values == EvalAll(r, e, w);
  }

  // ----- Return statements of Status -----

  /** The way a finding is worded is not modelled, only what it is about. */
  datatype Finding =
    | UnsupportedReceiver(name: string)
    | DuplicateKind(package: string, receiver: string)
    | DuplicateStatus(package: string, receiver: string)
    | NoMatchingKind(directory: string, receiver: string)
    | KindNotExternal(directory: string, receiver: string)
    | NoBody
    | NotOneResult
    | NotAStatusLiteral
    | StateNotPermitted
    | NoCode
    | CodeNotStable
    | BridgeReadyMissing
    | UnimplementedMissing
    | NoStatusMethod

  function ReturnFindings(results: seq<Expr>, bridge: bool): (findings: seq<Finding>)
    ensures findings == [] <==> ReturnAccepted(results, bridge)
  {
    if |results| != 1 then [NotOneResult]
    else if !results[0].Composite? || !IsStatusType(results[0].typ) then [NotAStatusLiteral]
    else
      var fields := StatusFields(results[0].elements);
      var permitted := "State" in fields
        && (IsStateLimitedOrUnavailable(fields["State"]) || (bridge && IsSelector(fields["State"], "StateReady")));
      (if permitted then [] else [StateNotPermitted]) +
      (if "Code" !in fields then [NoCode]
       else if LiteralText(fields["Code"]).None? || !HasPrefix(LiteralText(fields["Code"]).value, "archive.") then [CodeNotStable]
       else [])
  }

  function FindingsOf(rs: seq<seq<Expr>>, bridge: bool): seq<Finding> {
    if rs == [] then [] else FindingsOf(rs[..|rs| - 1], bridge) + ReturnFindings(rs[|rs| - 1], bridge)
  }

  ghost predicate SomeHasCode(rs: seq<seq<Expr>>, code: string) {
    exists r :: r in rs && HasCode(r, code)
  }

  ghost function BodyFindings(body: seq<Stmt>, bridge: bool): seq<Finding> {
    FindingsOf(AllReturns(body), bridge) +
    (if bridge && !SomeHasCode(AllReturns(body), CODE_BRIDGE_READY) then [BridgeReadyMissing]
     else if !bridge && !SomeHasCode(AllReturns(body), CODE_UNIMPLEMENTED) then [UnimplementedMissing]
     else [])
  }

  /** A body the analyser has no objection to. */
  ghost predicate BodyAccepted(body: seq<Stmt>, bridge: bool) {
    && (forall r :: r in AllReturns(body) ==> ReturnAccepted(r, bridge))
    && SomeHasCode(AllReturns(body), if bridge then CODE_BRIDGE_READY else CODE_UNIMPLEMENTED)
  }

  lemma {:induction false} NoFindingsOf(rs: seq<seq<Expr>>, bridge: bool)
    ensures FindingsOf(rs, bridge) == [] <==> forall r :: r in rs ==> ReturnAccepted(r, bridge)
  {
    hide ReturnAccepted, ReturnFindings;
    if rs != [] {
      var last := rs[|rs| - 1];
      NoFindingsOf(rs[..|rs| - 1], bridge);
      assert rs == rs[..|rs| - 1] + [last];
    }
  }

  lemma BodyFindingsEmpty(body: seq<Stmt>, bridge: bool)
    ensures BodyFindings(body, bridge) == [] <==> BodyAccepted(body, bridge)
  {
    hide ReturnAccepted, AllReturns, SomeHasCode;
    NoFindingsOf(AllReturns(body), bridge);
  }

  /** The inspection of one Status body, with the two codes it looks out for. */
  method CheckBody(body: seq<Stmt>, bridge: bool) returns (findings: seq<Finding>)
    ensures findings == BodyFindings(body, bridge)
  {
    hide AllReturns, ReturnFindings, ReturnAccepted, HasCode;
    var statements := AllReturns(body);
    findings := [];
    var foundUnimplemented, foundBridgeReady := false, false;
    for i := 0 to |statements|
      invariant findings == FindingsOf(statements[..i], bridge)
      invariant foundUnimplemented <==> SomeHasCode(statements[..i], CODE_UNIMPLEMENTED)
      invariant bridge ==> (foundBridgeReady <==> SomeHasCode(statements[..i], CODE_BRIDGE_READY))
    {
      var r := statements[i];
      assert statements[..i + 1] == statements[..i] + [r];
      findings := findings + ReturnFindings(r, bridge);
      SomeHasCodeNext(statements[..i], r, CODE_UNIMPLEMENTED);
      SomeHasCodeNext(statements[..i], r, CODE_BRIDGE_READY);
      if HasCode(r, CODE_UNIMPLEMENTED) {
        CodesDiffer(r);
        foundUnimplemented := true;
      } else if bridge && HasCode(r, CODE_BRIDGE_READY) {
        foundBridgeReady := true;
      }
    }
    assert statements[..|statements|] == statements;
    if bridge && !foundBridgeReady {
      findings := findings + [BridgeReadyMissing];
    } else if !bridge && !foundUnimplemented {
      findings := findings + [UnimplementedMissing];
    }
  }

  lemma SomeHasCodeNext(rs: seq<seq<Expr>>, r: seq<Expr>, code: string)
    ensures SomeHasCode(rs + [r], code) <==> SomeHasCode(rs, code) || HasCode(r, code)
  {
    hide HasCode;
    if HasCode(r, code) {
      assert r in rs + [r];
    }
    if SomeHasCode(rs, code) {
      var x :| x in rs && HasCode(x, code);
      assert x in rs + [r];
    }
  }

  lemma CodesDiffer(r: seq<Expr>)
    ensures !(HasCode(r, CODE_UNIMPLEMENTED) && HasCode(r, CODE_BRIDGE_READY))
  {
    assert CODE_UNIMPLEMENTED[8] != CODE_BRIDGE_READY[8];
  }

  // ----- Collecting the methods -----

  /** A method declaration. `fetches` says whether its body calls a selector named fetchMessages. */
  datatype Declaration = Declaration(name: string, receiver: Expr, directory: string, package: string,
                                     body: Option<seq<Stmt>>, fetches: bool)

  function ReceiverTypeName(e: Expr): string {
    match e
    case Ident(name) => name
    case Star(x) => ReceiverTypeName(x)
    case Index(x) => ReceiverTypeName(x)
    case _ => ""
  }

  predicate Supported(d: Declaration) {
    ReceiverTypeName(d.receiver) != ""
  }

  function KeyOf(d: Declaration): string {
    d.directory + "/" + d.package + "/" + ReceiverTypeName(d.receiver)
  }

  /** Two methods share a key exactly when they belong to one receiver type of one package in one directory. */
  lemma KeysTellReceiversApart(d: Declaration, e: Declaration)
    requires '/' !in d.package && '/' !in e.package
    requires '/' !in ReceiverTypeName(d.receiver) && '/' !in ReceiverTypeName(e.receiver)
    ensures KeyOf(d) == KeyOf(e) <==>
      d.directory == e.directory && d.package == e.package && ReceiverTypeName(d.receiver) == ReceiverTypeName(e.receiver)
  {
    if KeyOf(d) == KeyOf(e) {
      var a, b := d.directory + "/" + d.package, e.directory + "/" + e.package;
      assert KeyOf(d) == a + ['/'] + ReceiverTypeName(d.receiver);
      assert KeyOf(e) == b + ['/'] + ReceiverTypeName(e.receiver);
      LastSeparatorCancels(a, ReceiverTypeName(d.receiver), b, ReceiverTypeName(e.receiver), '/');
      LastSeparatorCancels(d.directory, d.package, e.directory, e.package, '/');
    }
  }

  predicate IsBridgeFetch(d: Declaration) {
    d.name == "Fetch" && ReceiverTypeName(d.receiver) == "BridgeSource"
  }

  datatype Contract = Contract(source: string, bridgeFetcher: bool)

  datatype Collection = Collection(kinds: map<string, Contract>, methods: seq<Declaration>, findings: seq<Finding>)

  function KeysOf(ds: seq<Declaration>): set<string> {
    set d | d in ds :: KeyOf(d)
  }

  function Collect(c: Collection, d: Declaration): Collection {
    var receiver, key := ReceiverTypeName(d.receiver), KeyOf(d);
    if !Supported(d) then
      if d.name == "Kind" || d.name == "Status" then c.(findings := c.findings + [UnsupportedReceiver(d.name)]) else c
    else if d.name == "Kind" then
      if key in c.kinds then c.(findings := c.findings + [DuplicateKind(d.package, receiver)])
      else c.(kinds := c.kinds[key := Contract(SourceOfBody(d.body), false)])
    else if d.name == "Status" then
      if key in KeysOf(c.methods) then c.(findings := c.findings + [DuplicateStatus(d.package, receiver)])
      else c.(methods := c.methods + [d])
    else if IsBridgeFetch(d) then
      c.(kinds := c.kinds[key := (if key in c.kinds then c.kinds[key] else Contract("", false)).(bridgeFetcher := d.fetches)])
    else c
  }

  function Collected(ds: seq<Declaration>): Collection {
    if ds == [] then Collection(map[], [], []) else Collect(Collected(ds[..|ds| - 1]), ds[|ds| - 1])
  }

  predicate OpensKind(d: Declaration) {
    d.name == "Kind" || IsBridgeFetch(d)
  }

  /** A declaration that raises no objection after the ones before it. */
  ghost predicate FitsAfter(before: seq<Declaration>, d: Declaration) {
    if !Supported(d) then d.name != "Kind" && d.name != "Status"
    else forall e :: e in before && Supported(e) && KeyOf(e) == KeyOf(d) ==>
           !(d.name == "Kind" && OpensKind(e)) && !(d.name == "Status" && e.name == "Status")
  }

  ghost predicate Orderly(ds: seq<Declaration>) {
    forall j :: 0 <= j < |ds| ==> FitsAfter(ds[..j], ds[j])
  }

  lemma OrderlyStep(ds: seq<Declaration>, d: Declaration)
    ensures Orderly(ds + [d]) <==> Orderly(ds) && FitsAfter(ds, d)
  {
    hide FitsAfter;
    var all := ds + [d];
    assert all[|ds|] == d && all[..|ds|] == ds;
    forall j | 0 <= j < |ds|
      ensures all[..j] == ds[..j] && all[j] == ds[j]
    {
    }
    if Orderly(all) {
      assert FitsAfter(all[..|ds|], all[|ds|]);
      forall j | 0 <= j < |ds|
        ensures FitsAfter(ds[..j], ds[j])
      {
        assert FitsAfter(all[..j], all[j]);
      }
    }
  }

  ghost predicate Opened(ds: seq<Declaration>, key: string) {
    exists d :: d in ds && Supported(d) && KeyOf(d) == key && OpensKind(d)
  }

  ghost predicate HasStatus(ds: seq<Declaration>, key: string) {
    exists d :: d in ds && Supported(d) && KeyOf(d) == key && d.name == "Status"
  }

  lemma OpenedStep(ds: seq<Declaration>, d: Declaration, key: string)
    ensures Opened(ds + [d], key) <==> Opened(ds, key) || (Supported(d) && KeyOf(d) == key && OpensKind(d))
    ensures HasStatus(ds + [d], key) <==> HasStatus(ds, key) || (Supported(d) && KeyOf(d) == key && d.name == "Status")
  {
    hide KeyOf, OpensKind;
    assert d in ds + [d];
    if Opened(ds, key) {
      var e :| e in ds && Supported(e) && KeyOf(e) == key && OpensKind(e);
      assert e in ds + [d];
    }
    if HasStatus(ds, key) {
      var e :| e in ds && Supported(e) && KeyOf(e) == key && e.name == "Status";
      assert e in ds + [d];
    }
  }

  /** An entry exists exactly for the receivers with a Kind, or with a Fetch of the bridge. */
  lemma {:induction false} CollectedKeys(ds: seq<Declaration>, key: string)
    ensures key in Collected(ds).kinds <==> Opened(ds, key)
    ensures key in KeysOf(Collected(ds).methods) <==> HasStatus(ds, key)
  {
    hide KeyOf, Opened, HasStatus, SourceOfBody;
    if ds == [] {
      NothingOpened(key);
    } else {
      var before, last := ds[..|ds| - 1], ds[|ds| - 1];
      assert ds == before + [last];
      CollectedKeys(before, key);
      OpenedStep(before, last, key);
      KeysOfStep(Collected(before).methods, last);
    }
  }

  lemma NothingOpened(key: string)
    ensures !Opened([], key) && !HasStatus([], key)
  {
  }

  lemma KeysOfStep(ds: seq<Declaration>, d: Declaration)
    ensures KeysOf(ds + [d]) == KeysOf(ds) + {KeyOf(d)}
  {
    hide KeyOf;
    forall k | k in KeysOf(ds) + {KeyOf(d)}
      ensures k in KeysOf(ds + [d])
    {
      if k == KeyOf(d) {
        assert d in ds + [d];
      } else {
        var e :| e in ds && KeyOf(e) == k;
        assert e in ds + [d];
      }
    }
  }

  /** What a declaration objects to, in terms of the entries made so far. */
  lemma FitsAfterInEntries(ds: seq<Declaration>, d: Declaration)
    ensures FitsAfter(ds, d) <==>
      if !Supported(d) then d.name != "Kind" && d.name != "Status"
      else !(d.name == "Kind" && Opened(ds, KeyOf(d))) && !(d.name == "Status" && HasStatus(ds, KeyOf(d)))
  {
    hide KeyOf, OpensKind;
  }

  /** The collection raises no objection exactly when every declaration fits after the ones before it. */
  lemma {:induction false} CollectionIsClean(ds: seq<Declaration>)
    ensures Collected(ds).findings == [] <==> Orderly(ds)
  {
    hide KeyOf, Opened, HasStatus, SourceOfBody, FitsAfter, Orderly;
    if ds == [] {
      NothingIsOrderly();
    } else {
      var before, last := ds[..|ds| - 1], ds[|ds| - 1];
      assert ds == before + [last];
      CollectionIsClean(before);
      OrderlyStep(before, last);
      FitsAfterInEntries(before, last);
      CollectedKeys(before, KeyOf(last));
    }
  }

  lemma NothingIsOrderly()
    ensures Orderly([])
  {
  }

  /** Visiting two neighbours the other way round raises an objection while collecting exactly when they are the
      Kind and the Fetch of one BridgeSource: Fetch has made the entry that Kind then takes for a duplicate. */
  lemma SwapIsOrderlyUnlessKindBeforeFetch(before: seq<Declaration>, a: Declaration, b: Declaration)
    requires Orderly(before + [a] + [b])
    ensures Orderly(before + [b] + [a]) <==> !(Supported(a) && a.name == "Kind" && IsBridgeFetch(b) && KeyOf(a) == KeyOf(b))
  {
    hide KeyOf, Orderly;
    OrderlyStep(before + [a], b);
    OrderlyStep(before, a);
    OrderlyStep(before + [b], a);
    OrderlyStep(before, b);
    assert b in before + [b];
    assert forall e :: e in before + [b] <==> e in before || e == b;
    assert forall e :: e in before + [a] <==> e in before || e == a;
  }

  /** The three maps and lists of the first phase, as the loop over the declarations fills them. */
  method CollectMethods(ds: seq<Declaration>)
    returns (kinds: map<string, Contract>, methods: seq<Declaration>, findings: seq<Finding>)
    ensures Collection(kinds, methods, findings) == Collected(ds)
  {
    hide KeyOf, SourceOfBody;
    kinds, methods, findings := map[], [], [];
    var methodKeys: set<string> := {};
    for i := 0 to |ds|
      invariant Collection(kinds, methods, findings) == Collected(ds[..i])
      invariant methodKeys == KeysOf(methods)
    {
      var d := ds[i];
      assert ds[..i + 1][..i] == ds[..i];
      KeysOfStep(methods, d);
      var receiver := ReceiverTypeName(d.receiver);
      if receiver == "" {
        if d.name == "Kind" || d.name == "Status" {
          findings := findings + [UnsupportedReceiver(d.name)];
        }
        continue;
      }
      var key := KeyOf(d);
      if d.name == "Kind" {
        if key in kinds {
          findings := findings + [DuplicateKind(d.package, receiver)];
          continue;
        }
        var source := ReturnedSource(d.body);
        kinds := kinds[key := Contract(source, false)];
      }
      if d.name == "Status" {
        if key in methodKeys {
          findings := findings + [DuplicateStatus(d.package, receiver)];
          continue;
        }
        methodKeys := methodKeys + {key};
        methods := methods + [d];
      }
      if d.name == "Fetch" && receiver == "BridgeSource" {
        var contract := if key in kinds then kinds[key] else Contract("", false);
        kinds := kinds[key := contract.(bridgeFetcher := d.fetches)];
      }
    }
    assert ds[..|ds|] == ds;
  }

  // ----- The verdict -----

  predicate IsArchiveDirectory(directory: string) {
    directory == "archive" || HasSuffix(directory, "/archive")
  }

  /** The Status method held to the contract of the bridge: it may also return StateReady. */
  predicate IsBridge(status: Declaration, contract: Contract) {
    ReceiverTypeName(status.receiver) == "BridgeSource" && IsArchiveDirectory(status.directory) && contract.bridgeFetcher
  }

  ghost function StatusFindings(status: Declaration, kinds: map<string, Contract>): seq<Finding> {
    var key, receiver := KeyOf(status), ReceiverTypeName(status.receiver);
    if key !in kinds then [NoMatchingKind(status.directory, receiver)]
    else if kinds[key].source == "simulated" then []
    else if kinds[key].source != "external" then [KindNotExternal(status.directory, receiver)]
    else if status.body.None? then [NoBody]
    else BodyFindings(status.body.value, IsBridge(status, kinds[key]))
  }

  ghost function AllStatusFindings(methods: seq<Declaration>, kinds: map<string, Contract>): seq<Finding> {
    if methods == [] then []
    else AllStatusFindings(methods[..|methods| - 1], kinds) + StatusFindings(methods[|methods| - 1], kinds)
  }

  /** uniqueErrors: the first occurrence of each. */
  function Unique<T(==)>(s: seq<T>): seq<T> {
    if s == [] then []
    else if s[|s| - 1] in s[..|s| - 1] then Unique(s[..|s| - 1])
    else Unique(s[..|s| - 1]) + [s[|s| - 1]]
  }

  lemma {:induction false} UniqueKeepsEachOnce<T>(s: seq<T>)
    ensures forall x :: x in Unique(s) <==> x in s
    ensures forall i, j :: 0 <= i < j < |Unique(s)| ==> Unique(s)[i] != Unique(s)[j]
    ensures Unique(s) == [] <==> s == []
  {
    if s != [] {
      UniqueKeepsEachOnce(s[..|s| - 1]);
      assert s == s[..|s| - 1] + [s[|s| - 1]];
    }
  }

  method UniqueErrors(findings: seq<Finding>) returns (unique: seq<Finding>)
    ensures unique == Unique(findings)
  {
    var seen: set<Finding> := {};
    unique := [];
    for i := 0 to |findings|
      invariant unique == Unique(findings[..i])
      invariant forall x :: x in seen <==> x in findings[..i]
    {
      assert findings[..i + 1][..i] == findings[..i];
      if findings[i] !in seen {
        seen := seen + {findings[i]};
        unique := unique + [findings[i]];
      }
    }
    assert findings[..|findings|] == findings;
  }

  /** Everything checkArchiveStatuses reports about the declarations, in the order it visits them. */
  ghost function Report(ds: seq<Declaration>): seq<Finding> {
    var c := Collected(ds);
    Unique(c.findings + AllStatusFindings(c.methods, c.kinds) + NoStatusFinding(c.methods, c.kinds))
  }

  function NoStatusFinding(methods: seq<Declaration>, kinds: map<string, Contract>): seq<Finding> {
    if methods == [] && kinds != map[] then [NoStatusMethod] else []
  }

  method CheckArchiveStatuses(ds: seq<Declaration>) returns (report: seq<Finding>)
    ensures report == Report(ds)
  {
    hide Collected, BodyFindings, KeyOf, Unique, IsArchiveDirectory;
    var kinds, methods, findings := CollectMethods(ds);
    ghost var collected := findings;
    for i := 0 to |methods|
      invariant findings == collected + AllStatusFindings(methods[..i], kinds)
    {
      var status := methods[i];
      assert methods[..i + 1][..i] == methods[..i];
      var key, receiver := KeyOf(status), ReceiverTypeName(status.receiver);
      if key !in kinds {
        findings := findings + [NoMatchingKind(status.directory, receiver)];
        continue;
      }
      var contract := kinds[key];
      if contract.source == "simulated" {
        continue;
      }
      if contract.source != "external" {
        findings := findings + [KindNotExternal(status.directory, receiver)];
        continue;
      }
      if status.body.None? {
        findings := findings + [NoBody];
        continue;
      }
      var more := CheckBody(status.body.value, IsBridge(status, contract));
      findings := findings + more;
    }
    assert methods[..|methods|] == methods;
    assert |kinds| > 0 <==> kinds != map[];
    if |methods| == 0 && |kinds| > 0 {
      findings := findings + [NoStatusMethod];
    }
    assert findings == collected + AllStatusFindings(methods, kinds) + NoStatusFinding(methods, kinds);
    report := UniqueErrors(findings);
  }

  // ----- What an empty report means -----

  ghost predicate StatusAccepted(status: Declaration, kinds: map<string, Contract>) {
    && KeyOf(status) in kinds
    && var contract := kinds[KeyOf(status)];
       || contract.source == "simulated"
       || (contract.source == "external" && status.body.Some? && BodyAccepted(status.body.value, IsBridge(status, contract)))
  }

  lemma NoFindingsOfStatus(status: Declaration, kinds: map<string, Contract>)
    ensures StatusFindings(status, kinds) == [] <==> StatusAccepted(status, kinds)
  {
    hide KeyOf, BodyFindings, BodyAccepted, IsBridge;
    if KeyOf(status) in kinds && status.body.Some? {
      BodyFindingsEmpty(status.body.value, IsBridge(status, kinds[KeyOf(status)]));
    }
  }

  lemma {:induction false} NoStatusFindings(methods: seq<Declaration>, kinds: map<string, Contract>)
    ensures AllStatusFindings(methods, kinds) == [] <==> forall m :: m in methods ==> StatusAccepted(m, kinds)
  {
    hide StatusFindings, StatusAccepted;
    if methods != [] {
      var last := methods[|methods| - 1];
      NoStatusFindings(methods[..|methods| - 1], kinds);
      NoFindingsOfStatus(last, kinds);
      assert methods == methods[..|methods| - 1] + [last];
    }
  }

  /** An empty report: the declarations fit, every Status is accepted, and if there is a Kind there is a Status. */
  lemma ReportIsEmptyExactlyWhenAllIsAccepted(ds: seq<Declaration>)
    ensures Report(ds) == [] <==>
      && Orderly(ds)
      && (forall m :: m in Collected(ds).methods ==> StatusAccepted(m, Collected(ds).kinds))
      && (Collected(ds).kinds != map[] ==> Collected(ds).methods != [])
  {
    hide Collected, Orderly, StatusAccepted, AllStatusFindings, Unique;
    var c := Collected(ds);
    CollectionIsClean(ds);
    NoStatusFindings(c.methods, c.kinds);
    UniqueKeepsEachOnce(c.findings + AllStatusFindings(c.methods, c.kinds) + NoStatusFinding(c.methods, c.kinds));
  }

  /** Every declaration that fits is entered: a Status in the list, a Kind with the source of its body. */
  lemma {:induction false} CollectedContents(ds: seq<Declaration>, d: Declaration)
    requires Orderly(ds) && d in ds && Supported(d)
    ensures d.name == "Status" ==> d in Collected(ds).methods
    ensures d.name == "Kind" ==> KeyOf(d) in Collected(ds).kinds && Collected(ds).kinds[KeyOf(d)].source == SourceOfBody(d.body)
  {
    hide KeyOf, SourceOfBody, Orderly, FitsAfter, Opened, HasStatus;
    var before, last := ds[..|ds| - 1], ds[|ds| - 1];
    assert ds == before + [last];
    OrderlyStep(before, last);
    FitsAfterInEntries(before, last);
    CollectedKeys(before, KeyOf(last));
    if d == last {
      assert d in Collected(before).methods + [d];
    } else {
      CollectedContents(before, d);
      FoundLater(before, d);
    }
  }

  lemma FoundLater(ds: seq<Declaration>, d: Declaration)
    requires d in ds && Supported(d)
    ensures d.name == "Kind" ==> Opened(ds, KeyOf(d))
  {
    hide KeyOf;
  }

  /** A BridgeSource of an archive directory with a Fetch that calls fetchMessages. */
  ghost predicate HasBridgeFetch(ds: seq<Declaration>, key: string) {
    exists f :: f in ds && Supported(f) && IsBridgeFetch(f) && KeyOf(f) == key && f.fetches
  }

  ghost predicate MayBeBridge(ds: seq<Declaration>, status: Declaration) {
    && ReceiverTypeName(status.receiver) == "BridgeSource" && IsArchiveDirectory(status.directory)
    && HasBridgeFetch(ds, KeyOf(status))
  }

  lemma {:induction false} BridgeFetcherHasFetch(ds: seq<Declaration>, key: string)
    requires key in Collected(ds).kinds && Collected(ds).kinds[key].bridgeFetcher
    ensures HasBridgeFetch(ds, key)
  {
    hide KeyOf, SourceOfBody, HasBridgeFetch;
    var before, last := ds[..|ds| - 1], ds[|ds| - 1];
    assert ds == before + [last];
    HasBridgeFetchStep(before, last, key);
    if !(Supported(last) && IsBridgeFetch(last) && KeyOf(last) == key) {
      BridgeFetcherHasFetch(before, key);
    }
  }

  lemma HasBridgeFetchStep(ds: seq<Declaration>, d: Declaration, key: string)
    ensures HasBridgeFetch(ds, key) ==> HasBridgeFetch(ds + [d], key)
    ensures Supported(d) && IsBridgeFetch(d) && KeyOf(d) == key && d.fetches ==> HasBridgeFetch(ds + [d], key)
  {
    hide KeyOf;
    assert d in ds + [d];
    if HasBridgeFetch(ds, key) {
      var f :| f in ds && Supported(f) && IsBridgeFetch(f) && KeyOf(f) == key && f.fetches;
      assert f in ds + [d];
    }
  }

  lemma PassingStatusIsAccepted(ds: seq<Declaration>, kind: Declaration, status: Declaration)
    requires Report(ds) == []
    requires kind in ds && Supported(kind) && kind.name == "Kind" && kind.body.Some?
    requires status in ds && Supported(status) && status.name == "Status" && KeyOf(status) == KeyOf(kind)
    ensures SourceOfBody(kind.body) != "simulated" ==>
      SourceOfBody(kind.body) == "external" && status.body.Some? &&
      exists bridge :: BodyAccepted(status.body.value, bridge) && (bridge ==> MayBeBridge(ds, status))
  {
    hide Report, Collected, Orderly, KeyOf, BodyAccepted, SourceOfBody, HasBridgeFetch;
    ReportIsEmptyExactlyWhenAllIsAccepted(ds);
    CollectedContents(ds, kind);
    CollectedContents(ds, status);
    var contract := Collected(ds).kinds[KeyOf(kind)];
    assert StatusAccepted(status, Collected(ds).kinds);
    if contract.source != "simulated" {
      assert BodyAccepted(status.body.value, IsBridge(status, contract));
      if IsBridge(status, contract) {
        BridgeFetcherHasFetch(ds, KeyOf(kind));
      }
    }
  }

  /** With an empty report, a Status of a receiver whose Kind can return anything but SourceSimulated belongs
      to an external source; unless it is a bridge with a direct fetch, it returns an honest status
      whenever it returns, whatever branches, loops and closures it goes through. */
  lemma PassingStatusIsHonest(ds: seq<Declaration>, kind: Declaration, status: Declaration,
                              kindEnv: Env, kindWorld: World, kindFuel: nat, env: Env, w: World, fuel: nat)
    requires Report(ds) == []
    requires kind in ds && Supported(kind) && kind.name == "Kind" && kind.body.Some?
    requires status in ds && Supported(status) && status.name == "Status" && KeyOf(status) == KeyOf(kind)
    requires var ran := Run(kind.body.value, kindEnv, kindWorld, kindFuel);
      ran.Returned? && ran.values != [Const("SourceSimulated")]
    ensures Run(kind.body.value, kindEnv, kindWorld, kindFuel).values == [Const("SourceExternal")]
    ensures status.body.Some?
    ensures !MayBeBridge(ds, status) && Run(status.body.value, env, w, fuel).Returned? ==>
      |Run(status.body.value, env, w, fuel).values| == 1 && HonestStatus(Run(status.body.value, env, w, fuel).values[0])
  {
    hide Report, KeyOf, Run, MayBeBridge, HonestStatus, ReturnAccepted, AllReturns, OwnReturns, SourceOfBody, IsBridgeFetch;
    PassingStatusIsAccepted(ds, kind, status);
    ExternalKindIsExternal(kind.body.value, kindEnv, kindWorld, kindFuel);
    SourceIsExternalSimulatedOrUnknown(kind.body);
    if !MayBeBridge(ds, status) && Run(status.body.value, env, w, fuel).Returned? {
      AcceptedStatusIsHonest(status.body.value, env, w, fuel);
    }
  }

  lemma SourceIsExternalSimulatedOrUnknown(body: Option<seq<Stmt>>)
    ensures SourceOfBody(body) in {"external", "simulated", "unknown"}
  {
  }

  /** With an empty report, every Status has a Kind of its own. */
  lemma PassingStatusHasItsKind(ds: seq<Declaration>, status: Declaration)
    requires Report(ds) == []
    requires status in ds && Supported(status) && status.name == "Status"
    ensures exists kind :: kind in ds && Supported(kind) && kind.name == "Kind" && KeyOf(kind) == KeyOf(status)
  {
    hide Report, Collected, Orderly, KeyOf, BodyAccepted, SourceOfBody;
    ReportIsEmptyExactlyWhenAllIsAccepted(ds);
    CollectedContents(ds, status);
    assert StatusAccepted(status, Collected(ds).kinds);
    NamedSourceComesFromKind(ds, KeyOf(status));
  }

  ghost predicate HasKind(ds: seq<Declaration>, key: string) {
    exists kind :: kind in ds && Supported(kind) && kind.name == "Kind" && KeyOf(kind) == key
  }

  lemma {:induction false} NamedSourceComesFromKind(ds: seq<Declaration>, key: string)
    requires key in Collected(ds).kinds && Collected(ds).kinds[key].source != ""
    ensures HasKind(ds, key)
  {
    hide KeyOf, SourceOfBody, HasKind;
    var before, last := ds[..|ds| - 1], ds[|ds| - 1];
    assert ds == before + [last];
    HasKindStep(before, last, key);
    if !(Supported(last) && last.name == "Kind" && KeyOf(last) == key) {
      NamedSourceComesFromKind(before, key);
    }
  }

  lemma HasKindStep(ds: seq<Declaration>, d: Declaration, key: string)
    ensures HasKind(ds, key) ==> HasKind(ds + [d], key)
    ensures Supported(d) && d.name == "Kind" && KeyOf(d) == key ==> HasKind(ds + [d], key)
  {
    hide KeyOf;
    assert d in ds + [d];
    if HasKind(ds, key) {
      var k :| k in ds && Supported(k) && k.name == "Kind" && KeyOf(k) == key;
      assert k in ds + [d];
    }
  }

  /** The literal a source that is not implemented yet is expected to return. */
  function UnimplementedStatus(): Expr {
    Composite(Some(ProvidersName("Status")),
              [KeyValue(Ident("State"), ProvidersName("StateLimited")), KeyValue(Ident("Code"), StringLit(CODE_UNIMPLEMENTED))])
  }

  lemma UnimplementedIsAccepted()
    ensures BodyAccepted([Return([UnimplementedStatus()])], false)
  {
    hide TrimQuotesLeft, TrimQuotesRight, LiteralText;
    var literal, body := UnimplementedStatus(), [Return([UnimplementedStatus()])];
    var elements := literal.elements;
    assert elements[..1][..0] == [] && elements[..1] == [elements[0]];
    assert StatusFields([elements[0]]) == map["State" := elements[0].value];
    assert StatusFields(elements) == map["State" := elements[0].value, "Code" := elements[1].value];
    CodeLiteralText();
    NoStatementsInUnimplemented();
    assert AllStatements(body) == [body[0]];
    assert AllReturns(body) == [[literal]];
    assert [literal] in AllReturns(body);
    assert HasPrefix(CODE_UNIMPLEMENTED, "archive.");
    assert ReturnAccepted([literal], false) && HasCode([literal], CODE_UNIMPLEMENTED);
  }

  lemma CodeLiteralText()
    ensures LiteralText(StringLit(CODE_UNIMPLEMENTED)) == Some(CODE_UNIMPLEMENTED)
  {
    hide LiteralText;
    QuoteFreeTextIsItself(StringLit(CODE_UNIMPLEMENTED));
  }

  lemma NoStatementsInUnimplemented()
    ensures StatementsInAll([UnimplementedStatus()]) == []
  {
    var e := UnimplementedStatus();
    assert e.elements[1..] == [e.elements[1]];
    assert StatementsInElements(e.elements[1..]) == [];
  }

  /** The checker lets a source through that says plainly what it is: Kind returns SourceExternal, Status the
      limited state with the code of an unimplemented source, whatever the receiver and its package. */
  lemma PlainSourcePasses(kind: Declaration, status: Declaration)
    requires Supported(kind) && kind.name == "Kind" && kind.body == Some([Return([ProvidersName("SourceExternal")])])
    requires Supported(status) && status.name == "Status" && status.body == Some([Return([UnimplementedStatus()])])
    requires KeyOf(kind) == KeyOf(status)
    ensures Report([kind, status]) == []
  {
    hide Report, KeyOf, SourceOfBody, BodyAccepted, UnimplementedStatus, IsArchiveDirectory;
    var ds := [kind, status];
    assert ds[..1] == [kind] && [kind][..0] == [];
    assert SourceOfBody(kind.body) == "external" by { DirectKindIsExternal(); }
    assert Collected([]) == Collection(map[], [], []);
    assert Collected([kind]) == Collection(map[KeyOf(kind) := Contract("external", false)], [], []);
    assert KeysOf([]) == {};
    assert Collected(ds) == Collection(map[KeyOf(kind) := Contract("external", false)], [status], []);
    CollectionIsClean(ds);
    UnimplementedIsAccepted();
    ReportIsEmptyExactlyWhenAllIsAccepted(ds);
  }

  lemma DirectKindIsExternal()
    ensures SourceOfBody(Some([Return([ProvidersName("SourceExternal")])])) == "external"
  {
    var kind := Return([ProvidersName("SourceExternal")]);
    assert OwnReturnsOf(kind) == [[ProvidersName("SourceExternal")]];
    assert [kind][1..] == [];
  }
}
