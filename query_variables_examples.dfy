/**
 * The executions of the wallet query against the variable maps of the
 * query-variable tests. The wallet query declares `minAmount` as a number and
 * `status` and `startDate` as strings; every lemma holds for any pipeline.
 */
module QueryVariablesExamples {
  import opened Wrappers
  import opened Json
  import opened PipelineInjection
  import opened QueryVariables

  const WALLET_VARIABLES: Declared :=
    [("minAmount", NumberType), ("status", StringType), ("startDate", StringType)]

  /** Numbers and strings of the declared types are accepted and the pipeline is submitted. */
  lemma ExecutesWithVariables(pipeline: Json, startDate: string)
    requires forall n :: n in PlaceholderNames(pipeline) ==> n in {"minAmount", "status", "startDate"}
    ensures var r := ExecuteQuery(StoredQuery(pipeline, WALLET_VARIABLES),
                                  map["minAmount" := Num(500), "status" := Str("completed"), "startDate" := Str(startDate)]);
            r.status == 200 && r.body.Submitted?
  {
    var provided := map["minAmount" := Num(500), "status" := Str("completed"), "startDate" := Str(startDate)];
    assert WALLET_VARIABLES[0] == ("minAmount", NumberType);
    assert WALLET_VARIABLES[1] == ("status", StringType);
    assert WALLET_VARIABLES[2] == ("startDate", StringType);
    assert Accepts(WALLET_VARIABLES, provided) by {
      assert provided["minAmount"] == Num(500) && provided["status"] == Str("completed");
      assert provided["startDate"] == Str(startDate);
    }
    assert DeclaredNames(WALLET_VARIABLES) == {"minAmount", "status", "startDate"};
  }

  /** An object where a string is declared: one error, naming `status` and the expected type. */
  lemma RejectsObjectValue(pipeline: Json, startDate: string)
    ensures var r := ExecuteQuery(StoredQuery(pipeline, WALLET_VARIABLES),
                                  map["minAmount" := Num(500), "status" := Obj([("value", Str("completed"))]),
                                      "startDate" := Str(startDate)]);
            r.status == 200 && r.body.Errors? && |r.body.errors| == 1 &&
            Contains(r.body.errors[0], "status") && Contains(r.body.errors[0], "Expected string")
  {
    var provided := map["minAmount" := Num(500), "status" := Obj([("value", Str("completed"))]),
                        "startDate" := Str(startDate)];
    var e := VariableError("status", Expected(StringType, "object"));
    assert !Accepts(WALLET_VARIABLES, provided) by {
      assert WALLET_VARIABLES[1] == ("status", StringType);
    }
    assert Validate(WALLET_VARIABLES, provided) == Failure(e);
    MessageNamesKeyAndReason(e);
    ExpectedNamesType(StringType, "object");
    assert "Expected " + StringType.Name() == "Expected string";
    ContainsTransitive(e.Message(), e.reason.Message(), "Expected string");
  }

  /** `null` for a declared variable: one error, naming `startDate`, saying `Required`. */
  lemma RejectsNullValue(pipeline: Json)
    ensures var r := ExecuteQuery(StoredQuery(pipeline, WALLET_VARIABLES),
                                  map["minAmount" := Num(500), "status" := Str("completed"), "startDate" := Null]);
            r.status == 200 && r.body.Errors? && |r.body.errors| == 1 &&
            Contains(r.body.errors[0], "startDate") && Contains(r.body.errors[0], "Required")
  {
    var provided := map["minAmount" := Num(500), "status" := Str("completed"), "startDate" := Null];
    var e := VariableError("startDate", Required);
    assert !Accepts(WALLET_VARIABLES, provided) by {
      assert WALLET_VARIABLES[2] == ("startDate", StringType);
    }
    assert Validate(WALLET_VARIABLES, provided) == Failure(e);
    MessageNamesKeyAndReason(e);
  }

  /**
   * `undefined`, or a function, for a declared variable: the key is absent on
   * the wire, so one error, naming `startDate`, reported as an invalid
   * variables error.
   */
  lemma RejectsAbsentValue(pipeline: Json)
    ensures var r := ExecuteQuery(StoredQuery(pipeline, WALLET_VARIABLES),
                                  map["minAmount" := Num(500), "status" := Str("completed")]);
            r.status == 200 && r.body.Errors? && |r.body.errors| == 1 &&
            Contains(r.body.errors[0], "startDate") &&
            Contains(r.body.errors[0], "Invalid query execution variables")
  {
    var provided := map["minAmount" := Num(500), "status" := Str("completed")];
    var e := VariableError("startDate", Required);
    assert !Accepts(WALLET_VARIABLES, provided) by {
      assert WALLET_VARIABLES[2] == ("startDate", StringType);
    }
    assert Validate(WALLET_VARIABLES, provided) == Failure(e);
    MessageNamesKeyAndReason(e);
  }
}
