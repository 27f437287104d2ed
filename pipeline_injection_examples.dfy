/**
 * The documented behaviour of pipeline variable substitution, one lemma per
 * scenario: each states the exact result for a concrete pipeline, under any
 * variables that carry the scenario's bindings (other bindings are allowed
 * and make no difference).
 */
module PipelineInjectionExamples {
  import opened Wrappers
  import opened Json
  import opened PipelineInjection

  /** `vars` binds `name` to `v`. */
  predicate Binds(vars: Variables, name: string, v: Scalar)
  {
    name in vars && vars[name] == v
  }

  /** A `##address` leaf bound to a string becomes that string. */
  lemma ReplacesSimpleVariables(vars: Variables)
    requires Binds(vars, "address", SString("abc123"))
    ensures Inject(Arr([Obj([("$match", Obj([("wallet", Str("##address"))]))])]), vars)
         == Success(Arr([Obj([("$match", Obj([("wallet", Str("abc123"))]))])]))
  {
    InjectBoundLeaf("address", vars, SString("abc123"));
    InjectObject([("wallet", Str("##address"))], vars, [("wallet", Str("abc123"))]);
    InjectObject([("$match", Obj([("wallet", Str("##address"))]))], vars,
                 [("$match", Obj([("wallet", Str("abc123"))]))]);
    InjectArray([Obj([("$match", Obj([("wallet", Str("##address"))]))])], vars,
                [Obj([("$match", Obj([("wallet", Str("abc123"))]))])]);
  }

  /** Numbers and booleans are substituted as numbers and booleans, not as text. */
  lemma ReplacesMultipleVariableTypes(vars: Variables)
    requires Binds(vars, "address", SString("abc123"))
    requires Binds(vars, "value", SNumber(1000))
    requires Binds(vars, "isActive", SBoolean(false))
    ensures Inject(Arr([Obj([("$match", Obj([("wallet", Str("##address")), ("amount", Str("##value")),
                                             ("active", Str("##isActive"))]))])]), vars)
         == Success(Arr([Obj([("$match", Obj([("wallet", Str("abc123")), ("amount", Num(1000)),
                                              ("active", Bool(false))]))])]))
  {
    InjectBoundLeaf("address", vars, SString("abc123"));
    InjectBoundLeaf("value", vars, SNumber(1000));
    InjectBoundLeaf("isActive", vars, SBoolean(false));
    var matchIn := [("wallet", Str("##address")), ("amount", Str("##value")), ("active", Str("##isActive"))];
    var matchOut := [("wallet", Str("abc123")), ("amount", Num(1000)), ("active", Bool(false))];
    InjectObject(matchIn, vars, matchOut);
    InjectObject([("$match", Obj(matchIn))], vars, [("$match", Obj(matchOut))]);
    InjectArray([Obj([("$match", Obj(matchIn))])], vars, [Obj([("$match", Obj(matchOut))])]);
  }

  /** An unbound placeholder fails with the message that quotes it. */
  lemma MissingVariableFails(vars: Variables)
    requires "address" !in vars
    ensures Inject(Arr([Obj([("$match", Obj([("wallet", Str("##address"))]))])]), vars)
         == Failure(MissingVariable("address"))
  {
    assert Inject(Str("##address"), vars) == Failure(MissingVariable("address"));
    InjectObjectFails([("wallet", Str("##address"))], vars, 0, MissingVariable("address"));
    InjectObjectFails([("$match", Obj([("wallet", Str("##address"))]))], vars, 0, MissingVariable("address"));
    InjectArrayFails([Obj([("$match", Obj([("wallet", Str("##address"))]))])], vars, 0, MissingVariable("address"));
  }

  /** The error quotes the placeholder with its prefix. */
  lemma MissingVariableMessage()
    ensures MissingVariable("address").Message() == "Missing pipeline variable: ##address"
  {
  }

  /** The bindings of the four-stage pipeline scenario. */
  predicate ComplexBindings(vars: Variables)
  {
    && Binds(vars, "status", SString("active"))
    && Binds(vars, "startDate", SString("2024-01-01"))
    && Binds(vars, "collection", SString("users"))
    && Binds(vars, "localField", SString("userId"))
    && Binds(vars, "groupField", SString("category"))
    && Binds(vars, "valueField", SNumber(1))
  }

  const MATCH_STAGE_IN := Obj([("$match", Obj([("status", Str("##status")),
                                               ("_created", Obj([("$gt", Str("##startDate"))]))]))])
  const MATCH_STAGE_OUT := Obj([("$match", Obj([("status", Str("active")),
                                                ("_created", Obj([("$gt", Str("2024-01-01"))]))]))])
  const LOOKUP_STAGE_IN := Obj([("$lookup", Obj([("from", Str("##collection")), ("localField", Str("##localField")),
                                                 ("foreignField", Str("id")), ("as", Str("joined"))]))])
  const LOOKUP_STAGE_OUT := Obj([("$lookup", Obj([("from", Str("users")), ("localField", Str("userId")),
                                                  ("foreignField", Str("id")), ("as", Str("joined"))]))])
  const UNWIND_STAGE := Obj([("$unwind", Str("$joined"))])
  const GROUP_ID_IN := Obj([("$concat", Arr([Str("$joined."), Str("##groupField")]))])
  const GROUP_ID_OUT := Obj([("$concat", Arr([Str("$joined."), Str("category")]))])
  const GROUP_TOTAL_IN := Obj([("$sum", Str("##valueField"))])
  const GROUP_TOTAL_OUT := Obj([("$sum", Num(1))])
  const GROUP_STAGE_IN := Obj([("$group", Obj([("_id", GROUP_ID_IN), ("total", GROUP_TOTAL_IN)]))])
  const GROUP_STAGE_OUT := Obj([("$group", Obj([("_id", GROUP_ID_OUT), ("total", GROUP_TOTAL_OUT)]))])

  lemma MatchStage(vars: Variables)
    requires ComplexBindings(vars)
    ensures Inject(MATCH_STAGE_IN, vars) == Success(MATCH_STAGE_OUT)
  {
    InjectBoundLeaf("status", vars, SString("active"));
    InjectBoundLeaf("startDate", vars, SString("2024-01-01"));
    var createdIn, createdOut := [("$gt", Str("##startDate"))], [("$gt", Str("2024-01-01"))];
    InjectObject(createdIn, vars, createdOut);
    var matchIn := [("status", Str("##status")), ("_created", Obj(createdIn))];
    var matchOut := [("status", Str("active")), ("_created", Obj(createdOut))];
    InjectObject(matchIn, vars, matchOut);
    InjectObject(MATCH_STAGE_IN.fields, vars, MATCH_STAGE_OUT.fields);
  }

  lemma LookupStage(vars: Variables)
    requires ComplexBindings(vars)
    ensures Inject(LOOKUP_STAGE_IN, vars) == Success(LOOKUP_STAGE_OUT)
  {
    InjectBoundLeaf("collection", vars, SString("users"));
    InjectBoundLeaf("localField", vars, SString("userId"));
    InjectPlainLeaf("id", vars);
    InjectPlainLeaf("joined", vars);
    InjectObject(LOOKUP_STAGE_IN.fields[0].1.fields, vars, LOOKUP_STAGE_OUT.fields[0].1.fields);
    InjectObject(LOOKUP_STAGE_IN.fields, vars, LOOKUP_STAGE_OUT.fields);
  }

  lemma UnwindStage(vars: Variables)
    ensures Inject(UNWIND_STAGE, vars) == Success(UNWIND_STAGE)
  {
    InjectPlainLeaf("$joined", vars);
    InjectObject(UNWIND_STAGE.fields, vars, UNWIND_STAGE.fields);
  }

  lemma GroupIdClause(vars: Variables)
    requires ComplexBindings(vars)
    ensures Inject(GROUP_ID_IN, vars) == Success(GROUP_ID_OUT)
  {
    InjectPlainLeaf("$joined.", vars);
    InjectBoundLeaf("groupField", vars, SString("category"));
    InjectArray([Str("$joined."), Str("##groupField")], vars, [Str("$joined."), Str("category")]);
    InjectObject(GROUP_ID_IN.fields, vars, GROUP_ID_OUT.fields);
  }

  lemma GroupTotalClause(vars: Variables)
    requires ComplexBindings(vars)
    ensures Inject(GROUP_TOTAL_IN, vars) == Success(GROUP_TOTAL_OUT)
  {
    InjectBoundLeaf("valueField", vars, SNumber(1));
    InjectObject(GROUP_TOTAL_IN.fields, vars, GROUP_TOTAL_OUT.fields);
  }

  lemma GroupStage(vars: Variables)
    requires ComplexBindings(vars)
    ensures Inject(GROUP_STAGE_IN, vars) == Success(GROUP_STAGE_OUT)
  {
    GroupIdClause(vars);
    GroupTotalClause(vars);
    InjectObject(GROUP_STAGE_IN.fields[0].1.fields, vars, GROUP_STAGE_OUT.fields[0].1.fields);
    InjectObject(GROUP_STAGE_IN.fields, vars, GROUP_STAGE_OUT.fields);
  }

  /**
   * A four-stage pipeline: placeholders are replaced in every stage, while
   * `$joined`, `id`, `joined` and `$joined.` and all keys stay as written.
   */
  lemma HandlesComplexPipeline(vars: Variables)
    requires ComplexBindings(vars)
    ensures Inject(Arr([MATCH_STAGE_IN, LOOKUP_STAGE_IN, UNWIND_STAGE, GROUP_STAGE_IN]), vars)
         == Success(Arr([MATCH_STAGE_OUT, LOOKUP_STAGE_OUT, UNWIND_STAGE, GROUP_STAGE_OUT]))
  {
    MatchStage(vars);
    LookupStage(vars);
    UnwindStage(vars);
    GroupStage(vars);
    InjectArray([MATCH_STAGE_IN, LOOKUP_STAGE_IN, UNWIND_STAGE, GROUP_STAGE_IN], vars,
                [MATCH_STAGE_OUT, LOOKUP_STAGE_OUT, UNWIND_STAGE, GROUP_STAGE_OUT]);
  }

  /** The bindings of the nested-structure scenario. */
  predicate NestedBindings(vars: Variables)
  {
    && Binds(vars, "type1", SString("special"))
    && Binds(vars, "category1", SString("A"))
    && Binds(vars, "category2", SString("B"))
    && Binds(vars, "status", SString("active"))
    && Binds(vars, "deepValue", SString("nested-value"))
  }

  const TYPE_CLAUSE_IN := Obj([("type", Str("##type1"))])
  const TYPE_CLAUSE_OUT := Obj([("type", Str("special"))])
  const CATEGORY_CLAUSE_IN := Obj([("category", Obj([("$in", Arr([Str("##category1"), Str("##category2")]))]))])
  const CATEGORY_CLAUSE_OUT := Obj([("category", Obj([("$in", Arr([Str("A"), Str("B")]))]))])
  const DEEP_IN := Obj([("nested", Obj([("deep", Obj([("value", Str("##deepValue"))]))]))])
  const DEEP_OUT := Obj([("nested", Obj([("deep", Obj([("value", Str("nested-value"))]))]))])
  const AND_CLAUSE_IN := Obj([("$and", Arr([Obj([("status", Str("##status"))]), DEEP_IN]))])
  const AND_CLAUSE_OUT := Obj([("$and", Arr([Obj([("status", Str("active"))]), DEEP_OUT]))])

  lemma CategoryClause(vars: Variables)
    requires NestedBindings(vars)
    ensures Inject(CATEGORY_CLAUSE_IN, vars) == Success(CATEGORY_CLAUSE_OUT)
  {
    InjectBoundLeaf("category1", vars, SString("A"));
    InjectBoundLeaf("category2", vars, SString("B"));
    var inIn, inOut := [Str("##category1"), Str("##category2")], [Str("A"), Str("B")];
    InjectArray(inIn, vars, inOut);
    InjectObject([("$in", Arr(inIn))], vars, [("$in", Arr(inOut))]);
    InjectObject(CATEGORY_CLAUSE_IN.fields, vars, CATEGORY_CLAUSE_OUT.fields);
  }

  lemma DeepClause(vars: Variables)
    requires NestedBindings(vars)
    ensures Inject(DEEP_IN, vars) == Success(DEEP_OUT)
  {
    InjectBoundLeaf("deepValue", vars, SString("nested-value"));
    InjectObject([("value", Str("##deepValue"))], vars, [("value", Str("nested-value"))]);
    var deepIn := [("deep", Obj([("value", Str("##deepValue"))]))];
    var deepOut := [("deep", Obj([("value", Str("nested-value"))]))];
    InjectObject(deepIn, vars, deepOut);
    InjectObject(DEEP_IN.fields, vars, DEEP_OUT.fields);
  }

  lemma AndClause(vars: Variables)
    requires NestedBindings(vars)
    ensures Inject(AND_CLAUSE_IN, vars) == Success(AND_CLAUSE_OUT)
  {
    InjectBoundLeaf("status", vars, SString("active"));
    InjectObject([("status", Str("##status"))], vars, [("status", Str("active"))]);
    DeepClause(vars);
    InjectArray(AND_CLAUSE_IN.fields[0].1.items, vars, AND_CLAUSE_OUT.fields[0].1.items);
    InjectObject(AND_CLAUSE_IN.fields, vars, AND_CLAUSE_OUT.fields);
  }

  /** Placeholders inside `$or`, `$and` and `$in` at every depth are replaced. */
  lemma HandlesDeeplyNestedStructures(vars: Variables)
    requires NestedBindings(vars)
    ensures Inject(Arr([Obj([("$match", Obj([("$or", Arr([TYPE_CLAUSE_IN, CATEGORY_CLAUSE_IN, AND_CLAUSE_IN]))]))])]), vars)
         == Success(Arr([Obj([("$match", Obj([("$or", Arr([TYPE_CLAUSE_OUT, CATEGORY_CLAUSE_OUT, AND_CLAUSE_OUT]))]))])]))
  {
    InjectBoundLeaf("type1", vars, SString("special"));
    InjectObject(TYPE_CLAUSE_IN.fields, vars, TYPE_CLAUSE_OUT.fields);
    CategoryClause(vars);
    AndClause(vars);
    var orIn, orOut := [TYPE_CLAUSE_IN, CATEGORY_CLAUSE_IN, AND_CLAUSE_IN], [TYPE_CLAUSE_OUT, CATEGORY_CLAUSE_OUT, AND_CLAUSE_OUT];
    InjectArray(orIn, vars, orOut);
    InjectObject([("$or", Arr(orIn))], vars, [("$or", Arr(orOut))]);
    InjectObject([("$match", Obj([("$or", Arr(orIn))]))], vars, [("$match", Obj([("$or", Arr(orOut))]))]);
    InjectArray([Obj([("$match", Obj([("$or", Arr(orIn))]))])], vars, [Obj([("$match", Obj([("$or", Arr(orOut))]))])]);
  }
}
