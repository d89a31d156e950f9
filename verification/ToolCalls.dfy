/** Checking a raw tool call against the registered tools (backend/app/agents/loop.py). */
module ToolCalls {
  import opened Wrappers
  import opened History
  import opened Protocol
  import PyText
  import ProviderTranslation

  datatype CallError = Malformed | UnknownTool

  datatype ArgType = TextType | IntType | BoolType

  datatype Contract = Contract(needed: map<string, ArgType>, optional: map<string, ArgType>)

  datatype Entry = Entry(tool: ToolName, contract: Contract)

  /** The registered tools by name, with their contracts. */
  type Registry = map<string, Entry>

  /** `_build_tool_contracts`. */
  function Registered(enableTestTool: bool): Registry {
    map[
      "submit_candidate_files" := Entry(SubmitCandidateFiles, Contract(map[], map[])),
      "submit_plan" := Entry(SubmitPlan, Contract(map[], map[])),
      "submit_hypothesis" := Entry(SubmitHypothesis, Contract(map[], map[])),
      "retrieve_relevant_files" :=
        Entry(RetrieveRelevantFiles, Contract(map["query" := TextType], map["limit" := IntType, "semantic" := BoolType])),
      "list_files" := Entry(ListFiles, Contract(map[], map["path" := TextType])),
      "search_code" := Entry(SearchCode, Contract(map["query" := TextType], map["path" := TextType])),
      "read_file" := Entry(ReadFile, Contract(map["file_path" := TextType], map[])),
      "write_file" := Entry(WriteFile, Contract(map["file_path" := TextType, "content" := TextType], map[])),
      "get_diff" := Entry(GetDiff, Contract(map[], map[])),
      "submit_patch" := Entry(SubmitPatch, Contract(map[], map[]))
    ] + if enableTestTool then map["run_tests" := Entry(RunTests, Contract(map["command" := TextType], map[]))] else map[]
  }

  /** `isinstance(value, expected)`; a Python bool is an int. */
  predicate Fits(a: Arg, t: ArgType) {
    match t
    case TextType => a.TextArg?
    case IntType => a.IntArg? || a.BoolArg?
    case BoolType => a.BoolArg?
  }

  function Fields(c: RawCall): map<string, Arg>
    requires c.Structured? && !c.args.NotAnObject?
  {
    if c.args.Object? then c.args.fields else map[]
  }

  predicate ArgumentsFit(fields: map<string, Arg>, contract: Contract) {
    var expected := contract.optional + contract.needed;
    && fields.Keys <= expected.Keys
    && contract.needed.Keys <= fields.Keys
    && forall name | name in fields.Keys * expected.Keys :: Fits(fields[name], expected[name])
  }

  /** `_parse_tool_call`. Domain submissions validate their own arguments. */
  function Parse(c: RawCall, registry: Registry): Result<ToolName, CallError> {
    if !c.Structured? then Err(Malformed)
    else if c.id.None? || PyText.Blank(c.id.value) then Err(Malformed)
    else if c.name.None? || PyText.Blank(c.name.value) then Err(Malformed)
    else if c.args.NotAnObject? then Err(Malformed)
    else if c.name.value !in registry then Err(UnknownTool)
    else
      var entry := registry[c.name.value];
      if entry.tool in {SubmitCandidateFiles, SubmitPlan, SubmitHypothesis} || ArgumentsFit(Fields(c), entry.contract)
      then Ok(entry.tool) else Err(Malformed)
  }

  /** A call that is executed never makes a later provider request fail. */
  lemma ExecutedCallsTranslate(c: RawCall, registry: Registry)
    ensures Parse(c, registry).Ok? ==> ProviderTranslation.Translatable(c)
    ensures Parse(c, registry) == Err(UnknownTool) ==> ProviderTranslation.Translatable(c)
  {
    assert PyText.Blank("");
  }

  /** A structured call with an identifier, this name, and arguments that are an object or missing. */
  predicate CallOf(c: RawCall, name: string) {
    && c.Structured? && c.id.Some? && !PyText.Blank(c.id.value) && c.name == Some(name) && !c.args.NotAnObject?
  }

  /** The argument is there and is a text. */
  predicate HasText(fields: map<string, Arg>, key: string) {
    key in fields && fields[key].TextArg?
  }

  /** A call of a registered tool whose arguments are checked is run exactly if they are the ones it takes. */
  lemma ParsesIff(c: RawCall, registry: Registry, name: string)
    requires CallOf(c, name) && !PyText.Blank(name) && name in registry
    requires registry[name].tool !in {SubmitCandidateFiles, SubmitPlan, SubmitHypothesis}
    ensures var fields, contract := Fields(c), registry[name].contract;
            Parse(c, registry) ==
            if (forall key | key in fields :: key in contract.needed || key in contract.optional)
               && (forall key | key in contract.needed :: key in fields && Fits(fields[key], contract.needed[key]))
               && (forall key | key in contract.optional && key !in contract.needed && key in fields ::
                     Fits(fields[key], contract.optional[key]))
            then Ok(registry[name].tool) else Err(Malformed)
  {
  }

  /** Calls that are refused before the contract is looked at, and what the refusal is. */
  lemma RefusedIff(c: RawCall, registry: Registry)
    ensures Parse(c, registry) == Err(UnknownTool) <==>
              exists name :: CallOf(c, name) && !PyText.Blank(name) && name !in registry
    ensures Parse(c, registry).Ok? ==>
              exists name :: CallOf(c, name) && !PyText.Blank(name) && name in registry && Parse(c, registry).value == registry[name].tool
  {
    if c.Structured? && c.name.Some? && CallOf(c, c.name.value) {
      var name := c.name.value;
      assert CallOf(c, name);
    }
  }

  /** The contract of one tool that takes a text, a whole number and a flag. */
  lemma ThreeArguments(fields: map<string, Arg>, query: string, limit: string, semantic: string)
    requires query != limit && query != semantic && limit != semantic
    ensures ArgumentsFit(fields, Contract(map[query := TextType], map[limit := IntType, semantic := BoolType])) <==>
              && fields.Keys <= {query, limit, semantic} && HasText(fields, query)
              && (limit in fields ==> fields[limit].IntArg? || fields[limit].BoolArg?)
              && (semantic in fields ==> fields[semantic].BoolArg?)
  {
    var contract := Contract(map[query := TextType], map[limit := IntType, semantic := BoolType]);
    var expected := contract.optional + contract.needed;
    assert expected.Keys == {query, limit, semantic};
  }

  lemma NamesDiffer()
    ensures "query" != "limit" && "query" != "semantic" && "limit" != "semantic"
  {
  }

  /** A search takes a query, and may take a limit, where a flag passes for a number, and a flag. */
  lemma RetrieveTakes(fields: map<string, Arg>)
    ensures ArgumentsFit(fields, Contract(map["query" := TextType], map["limit" := IntType, "semantic" := BoolType])) <==>
              && fields.Keys <= {"query", "limit", "semantic"} && HasText(fields, "query")
              && ("limit" in fields ==> fields["limit"].IntArg? || fields["limit"].BoolArg?)
              && ("semantic" in fields ==> fields["semantic"].BoolArg?)
  {
    NamesDiffer();
    ThreeArguments(fields, "query", "limit", "semantic");
  }
}
