/**
 * Validation of the variables supplied when a stored query is executed. A
 * stored query declares the variables its pipeline uses, each with a scalar
 * type; the request supplies a key-to-value map. Each declared variable must
 * be supplied with a value of its declared type. Objects, arrays, `null` and
 * missing values are rejected. `undefined` and function values vanish when
 * the request is serialised, so on the wire they are absent keys. A rejection
 * is reported as a single error in the response body; the request itself
 * still answers 200.
 */
module QueryVariables {
  import opened Wrappers
  import opened Json
  import opened PipelineInjection

  datatype VarType = StringType | NumberType | BooleanType
  {
    function Name(): string
    {
      match this
      case StringType => "string"
      case NumberType => "number"
      case BooleanType => "boolean"
    }

    /** The JSON values of this type. */
    predicate Admits(j: Json)
    {
      match this
      case StringType => j.Str?
      case NumberType => j.Num?
      case BooleanType => j.Bool?
    }
  }

  /** The declared variables of a stored query, in declaration order. */
  type Declared = seq<(string, VarType)>

  /** The variables of a request; `undefined` and function values are absent keys. */
  type Provided = map<string, Json>

  /** The kind of a JSON value, as a validator names what it received. */
  function KindOf(j: Json): string
  {
    match j
    case Null => "null"
    case Bool(_) => "boolean"
    case Num(_) => "number"
    case Str(_) => "string"
    case Arr(_) => "array"
    case Obj(_) => "object"
  }

  datatype Rejection = Required | Expected(want: VarType, received: string)
  {
    function Message(): string
    {
      match this
      case Required => "Required"
      case Expected(want, received) => "Expected " + want.Name() + ", received " + received
    }
  }

  const INVALID_VARIABLES: string := "Invalid query execution variables"

  datatype VariableError = VariableError(key: string, reason: Rejection)
  {
    function Message(): string
    {
      INVALID_VARIABLES + ": " + key + ": " + reason.Message()
    }
  }

  /** The scalar held by a JSON leaf of a variable type. */
  function ScalarOf(j: Json): (s: Scalar)
    requires j.Str? || j.Num? || j.Bool?
    ensures s.ToJson() == j
  {
    match j
    case Str(s) => SString(s)
    case Num(n) => SNumber(n)
    case Bool(b) => SBoolean(b)
  }

  /** Checks one declared variable against the request. */
  function CheckVariable(key: string, want: VarType, provided: Provided): (r: Result<Scalar, VariableError>)
    ensures r.Success? <==> key in provided && want.Admits(provided[key])
    ensures r.Success? ==> r.value.ToJson() == provided[key]
    ensures r.Failure? ==> r.error.key == key
    ensures r.Failure? ==> (r.error.reason == Required <==> key !in provided || provided[key].Null?)
    ensures r.Failure? && key in provided && !provided[key].Null? ==>
              r.error.reason == Expected(want, KindOf(provided[key]))
  {
    if key !in provided || provided[key].Null? then Failure(VariableError(key, Required))
    else if !want.Admits(provided[key]) then Failure(VariableError(key, Expected(want, KindOf(provided[key]))))
    else Success(ScalarOf(provided[key]))
  }

  /** The declared variables the request supplies correctly. */
  predicate Accepts(declared: Declared, provided: Provided)
  {
    forall i :: 0 <= i < |declared| ==> declared[i].0 in provided && declared[i].1.Admits(provided[declared[i].0])
  }

  function DeclaredNames(declared: Declared): (r: set<string>)
    ensures forall n :: n in r <==> exists i :: 0 <= i < |declared| && declared[i].0 == n
  {
    set i | 0 <= i < |declared| :: declared[i].0
  }

  /** The `i`-th declared variable fails with `e`, and every one before it passes. */
  predicate FirstFailureAt(declared: Declared, provided: Provided, i: int, e: VariableError)
  {
    && 0 <= i < |declared|
    && CheckVariable(declared[i].0, declared[i].1, provided) == Failure(e)
    && forall j :: 0 <= j < i ==> CheckVariable(declared[j].0, declared[j].1, provided).Success?
  }

  /**
   * Validates the request against the declaration, in declaration order. The
   * result is the first error met, or the bound variables: exactly the
   * declared names, each bound to the scalar that was supplied for it.
   * Supplied keys the query does not declare are dropped.
   */
  function Validate(declared: Declared, provided: Provided): (r: Result<Variables, VariableError>)
    ensures r.Success? <==> Accepts(declared, provided)
    ensures r.Success? ==> r.value.Keys == DeclaredNames(declared)
    ensures r.Success? ==> forall n :: n in r.value ==> n in provided && r.value[n].ToJson() == provided[n]
    ensures r.Failure? ==> exists i :: FirstFailureAt(declared, provided, i, r.error)
  {
    if declared == [] then Success(map[])
    else
      var c := CheckVariable(declared[0].0, declared[0].1, provided);
      if c.Failure? then
        assert FirstFailureAt(declared, provided, 0, c.error);
        Failure(c.error)
      else
        var rest := Validate(declared[1..], provided);
        AcceptsFirstAndRest(declared, provided);
        if rest.Failure? then
          var k :| FirstFailureAt(declared[1..], provided, k, rest.error);
          FirstFailureShifts(declared, provided, k, rest.error);
          Failure(rest.error)
        else
          DeclaredNamesFirstAndRest(declared);
          Success(rest.value[declared[0].0 := c.value])
  }

  /** A non-empty declaration is accepted when its first variable and the rest are. */
  lemma AcceptsFirstAndRest(declared: Declared, provided: Provided)
    requires declared != []
    ensures Accepts(declared, provided) <==>
              CheckVariable(declared[0].0, declared[0].1, provided).Success? && Accepts(declared[1..], provided)
  {
    assert forall i :: 1 <= i < |declared| ==> declared[i] == declared[1..][i - 1];
  }

  /** A first failure in the rest, after a first variable that passes, is a first failure of the whole. */
  lemma FirstFailureShifts(declared: Declared, provided: Provided, k: int, e: VariableError)
    requires declared != [] && CheckVariable(declared[0].0, declared[0].1, provided).Success?
    requires FirstFailureAt(declared[1..], provided, k, e)
    ensures FirstFailureAt(declared, provided, k + 1, e)
  {
    assert forall i :: 1 <= i < |declared| ==> declared[i] == declared[1..][i - 1];
  }

  lemma DeclaredNamesFirstAndRest(declared: Declared)
    requires declared != []
    ensures DeclaredNames(declared) == DeclaredNames(declared[1..]) + {declared[0].0}
  {
    assert forall i :: 1 <= i < |declared| ==> declared[i] == declared[1..][i - 1];
  }

  /** A stored query: its pipeline and the variables it declares. */
  datatype StoredQuery = StoredQuery(pipeline: Json, variables: Declared)

  datatype Body = Errors(errors: seq<string>) | Submitted(pipeline: Json)

  datatype Response = Response(status: int, body: Body)

  const OK: int := 200

  /**
   * Executing a stored query: validate the variables, then substitute them
   * into the pipeline; the substituted pipeline is what runs. Either failure
   * is reported as a one-element error list in a 200 response.
   */
  function ExecuteQuery(query: StoredQuery, provided: Provided): (r: Response)
    ensures r.status == OK
    ensures r.body.Errors? ==> |r.body.errors| == 1
    ensures !Accepts(query.variables, provided) ==>
              r.body.Errors? && r.body.errors[0] == Validate(query.variables, provided).error.Message()
    ensures r.body.Submitted? <==>
              Accepts(query.variables, provided) &&
              forall n :: n in PlaceholderNames(query.pipeline) ==> n in DeclaredNames(query.variables)
    ensures r.body.Submitted? ==> Erase(r.body.pipeline) == Erase(query.pipeline)
    ensures r.body.Submitted? ==>
              Leaves(r.body.pipeline) == ResolveAll(Leaves(query.pipeline), Validate(query.variables, provided).value)
  {
    var v := Validate(query.variables, provided);
    if v.Failure? then Response(OK, Errors([v.error.Message()]))
    else
      InjectSucceedsIffAllBound(query.pipeline, v.value);
      var p := Inject(query.pipeline, v.value);
      if p.Failure? then Response(OK, Errors([p.error.Message()]))
      else
        InjectPreservesSkeleton(query.pipeline, v.value);
        InjectResolvesLeaves(query.pipeline, v.value);
        Response(OK, Submitted(p.value))
  }

  /** `sub` occurs in `s` starting at position `i`. */
  predicate OccursAt(s: string, sub: string, i: int)
  {
    0 <= i <= |s| - |sub| && s[i..i + |sub|] == sub
  }

  /** `sub` occurs in `s`. */
  ghost predicate Contains(s: string, sub: string)
  {
    exists i :: OccursAt(s, sub, i)
  }

  lemma OccursInMiddle(a: string, b: string, c: string)
    ensures OccursAt(a + b + c, b, |a|)
  {
    assert (a + b + c)[|a|..|a| + |b|] == b;
  }

  /** A message built as `head: key: reason` contains each of its three parts. */
  lemma {:induction false} LabelledContainsParts(head: string, key: string, reason: string)
    ensures Contains(head + ": " + key + ": " + reason, head)
    ensures Contains(head + ": " + key + ": " + reason, key)
    ensures Contains(head + ": " + key + ": " + reason, reason)
  {
    var m := head + ": " + key + ": " + reason;
    assert m[0..|head|] == head;
    assert OccursAt(m, head, 0);
    assert m[|head| + 2..|head| + 2 + |key|] == key;
    assert OccursAt(m, key, |head| + 2);
    assert m[|head| + 4 + |key|..|head| + 4 + |key| + |reason|] == reason;
    assert OccursAt(m, reason, |head| + 4 + |key|);
  }

  /** The message of a variable error names the key and the reason. */
  lemma MessageNamesKeyAndReason(e: VariableError)
    ensures Contains(e.Message(), INVALID_VARIABLES)
    ensures Contains(e.Message(), e.key)
    ensures Contains(e.Message(), e.reason.Message())
  {
    LabelledContainsParts(INVALID_VARIABLES, e.key, e.reason.Message());
  }

  /** `Expected <type>, ...` messages begin with the declared type. */
  lemma ExpectedNamesType(want: VarType, received: string)
    ensures Contains(Expected(want, received).Message(), "Expected " + want.Name())
  {
    var head, tail := "Expected " + want.Name(), ", received " + received;
    OccursInMiddle([], head, tail);
    assert [] + head + tail == Expected(want, received).Message();
  }

  lemma ContainsTransitive(s: string, mid: string, sub: string)
    requires Contains(s, mid) && Contains(mid, sub)
    ensures Contains(s, sub)
  {
    var i :| OccursAt(s, mid, i);
    var j :| OccursAt(mid, sub, j);
    forall k | 0 <= k < |sub| ensures s[i + j..i + j + |sub|][k] == sub[k] {
      assert sub[k] == mid[j + k] == s[i + j + k];
    }
    assert OccursAt(s, sub, i + j);
  }
}
