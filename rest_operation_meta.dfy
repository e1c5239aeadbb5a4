/** `RestOperationMeta`: the REST view of one operation, with its absolute
    path, its parameters by position and by name, its table of response
    encoders and the accept-header negotiation over that table. */
module RestDefinition {
  import opened Wrappers
  import opened Maps
  import opened JavaStrings
  import opened RestPath
  import opened AcceptNegotiation
  import opened Produce

  /** A swagger parameter: its name and where it is read from (path, query, header, body). */
  datatype SwaggerParameter = SwaggerParameter(name: string, location: string)

  /** A reflected parameter type of the operation's Java method, reduced to a tag. */
  datatype ParamType = ParamType(typeName: string)

  /** `new RestParam(idx, parameter, genericParamType)`. */
  datatype RestParam = RestParam(index: nat, parameter: SwaggerParameter, paramType: ParamType) {
    /** `getParamName()`: the swagger parameter's name. */
    function ParamName(): string {
      parameter.name
    }
  }

  /** What `init` reads from the operation's `OperationMeta`, its swagger
      schema and its Java method. */
  datatype OperationMeta = OperationMeta(
    /** `swagger.getBasePath()` */
    basePath: Option<string>,
    /** `swagger.getProduces()` */
    schemaProduces: Option<seq<string>>,
    /** `operation.getProduces()` */
    operationProduces: Option<seq<string>>,
    /** `operationMeta.getOperationPath()` */
    operationPath: Option<string>,
    /** `operation.getParameters()` */
    parameters: seq<SwaggerParameter>,
    /** `method.getGenericParameterTypes()` */
    methodParamTypes: seq<ParamType>)

  /** A compiled path template; matching is not part of this model. */
  datatype PathRegExp = PathRegExp(template: string)

  /** `new URLPathBuilder(absolutePath, paramMap)`, recorded by its arguments. */
  datatype URLPathBuilder = URLPathBuilder(path: string, params: map<string, RestParam>)

  /** The `Error`s `setAbsolutePath` and `init` throw. */
  datatype InitError =
    | NullRestUrl                 // "null rest url is not supported"
    | ParamCountMismatch(path: string)  // "Param count is not equal between swagger and method"

  /** One `paramMap.put(name, param)` per parameter, in order. */
  function ParamEntries(params: seq<RestParam>): seq<(string, RestParam)> {
    seq(|params|, i requires 0 <= i < |params| => (params[i].ParamName(), params[i]))
  }

  /** Registering two runs of parameters puts the first run's entries, then the second's. */
  lemma ParamEntriesAppend(a: seq<RestParam>, b: seq<RestParam>)
    ensures ParamEntries(a + b) == ParamEntries(a) + ParamEntries(b)
  {
  }

  /** One more parameter is one more `put`. */
  lemma ParamStep(m: map<string, RestParam>, params: seq<RestParam>, i: nat)
    requires i < |params|
    ensures params[..i + 1] == params[..i] + [params[i]]
    ensures PutAll(m, ParamEntries(params[..i + 1]))
            == PutAll(m, ParamEntries(params[..i]))[params[i].ParamName() := params[i]]
  {
    assert params[..i + 1] == params[..i] + [params[i]];
    assert ParamEntries(params[..i + 1]) == ParamEntries(params[..i]) + [(params[i].ParamName(), params[i])];
    PutAllSnoc(m, ParamEntries(params[..i]), (params[i].ParamName(), params[i]));
  }

  /** The parameters `init` registers: position `i` pairs swagger parameter
      `i` with method parameter type `i`. */
  function BuildParams(parameters: seq<SwaggerParameter>, types: seq<ParamType>): seq<RestParam>
    requires |parameters| == |types|
  {
    seq(|types|, i requires 0 <= i < |types| => RestParam(i, parameters[i], types[i]))
  }

  /** `null == produces || produces.isEmpty()` */
  predicate NoDeclaredProduces(produces: Option<seq<string>>) {
    produces.None? || produces.value == []
  }

  /** `createPathRegExp(path)`: a null or empty path is rejected; otherwise
      the template is compiled, and a template that does not compile is
      logged and yields `null`. `compiles` stands for `PathRegExp`'s
      constructor succeeding on a template. */
  function CreatePathRegExp(path: Option<string>, compiles: string -> bool): (r: Result<Option<PathRegExp>, InitError>)
    ensures r.Failure? <==> path.None? || path.value == ""
    ensures r.Failure? ==> r.error == NullRestUrl
    ensures r.Success? ==> (r.value.Some? <==> compiles(path.value))
    ensures r.Success? && r.value.Some? ==> r.value.value.template == path.value
  {
    if path.None? || path.value == "" then Failure(NullRestUrl)
    else if compiles(path.value) then Success(Some(PathRegExp(path.value)))
    else Success(None)
  }

  class RestOperationMeta {
    /** `ProduceProcessorManager.INSTANCE`, fixed for the object's lifetime. */
    const manager: ProcessorManager

    var operationMeta: Option<OperationMeta>
    var produces: Option<seq<string>>
    var paramList: seq<RestParam>
    /** keyed by parameter name */
    var paramMap: map<string, RestParam>
    /** keyed by content type */
    var produceProcessorMap: map<string, Processor>
    /** not necessarily the manager's default: the operation may not support it */
    var defaultProcessor: Option<Processor>
    var absolutePath: Option<string>
    var absolutePathRegExp: Option<PathRegExp>
    var pathBuilder: Option<URLPathBuilder>

    constructor (manager: ProcessorManager)
      ensures this.manager == manager
      ensures operationMeta == None && produces == None
      ensures paramList == [] && paramMap == map[]
      ensures produceProcessorMap == map[] && defaultProcessor == None
      ensures absolutePath == None && absolutePathRegExp == None && pathBuilder == None
      ensures ParamsIndexed()
    {
      this.manager := manager;
      operationMeta, produces := None, None;
      paramList, paramMap := [], map[];
      produceProcessorMap, defaultProcessor := map[], None;
      absolutePath, absolutePathRegExp, pathBuilder := None, None, None;
    }

    /** `paramMap` indexes `paramList` by name, a later parameter replacing
        an earlier one of the same name. */
    ghost predicate ParamsIndexed()
      reads this`paramList, this`paramMap
    {
      paramMap == PutAll(map[], ParamEntries(paramList))
    }

    /** The state `createProduceProcessors` leaves, given the table and
        default processor it started from. */
    ghost predicate ProcessorsBuilt(before: map<string, Processor>, defaultBefore: Option<Processor>)
      reads this`produces, this`produceProcessorMap, this`defaultProcessor
    {
      if NoDeclaredProduces(produces) then
        && produceProcessorMap == PutAll(before, NameEntries(manager.processors))
        && defaultProcessor == defaultBefore
      else
        && produceProcessorMap == PutAll(before, DeclaredEntries(produces.value, manager.registered))
        && IsDefaultOrFirst(produceProcessorMap, manager.defaultType, defaultProcessor)
    }

    /** `init(operationMeta)`. It fails, after the path and the encoder
        table are already set, when the method and the swagger operation
        disagree on the number of parameters. */
    method Init(meta: OperationMeta, compiles: string -> bool) returns (outcome: Outcome<InitError>)
      modifies this`operationMeta, this`produces, this`absolutePath, this`absolutePathRegExp
      modifies this`produceProcessorMap, this`defaultProcessor, this`paramList, this`paramMap, this`pathBuilder
      ensures operationMeta == Some(meta)
      ensures produces == if meta.operationProduces.Some? then meta.operationProduces else meta.schemaProduces
      ensures absolutePath == Some(ConcatPath(meta.basePath, meta.operationPath))
      ensures absolutePathRegExp == CreatePathRegExp(absolutePath, compiles).value
      ensures ProcessorsBuilt(old(produceProcessorMap), old(defaultProcessor))
      ensures outcome.Fail? <==> |meta.methodParamTypes| != |meta.parameters|
      ensures outcome.Fail? ==> outcome.error == ParamCountMismatch(absolutePath.value)
      ensures outcome.Fail? ==>
        paramList == old(paramList) && paramMap == old(paramMap) && pathBuilder == old(pathBuilder)
      ensures outcome.Pass? ==>
        var params := BuildParams(meta.parameters, meta.methodParamTypes);
        && paramList == old(paramList) + params
        && paramMap == PutAll(old(paramMap), ParamEntries(params))
        && pathBuilder == Some(URLPathBuilder(absolutePath.value, paramMap))
      ensures old(ParamsIndexed()) ==> ParamsIndexed()
    {
      operationMeta := Some(meta);
      produces := meta.operationProduces;
      if produces == None {
        produces := meta.schemaProduces;
      }

      var path := ConcatPath(meta.basePath, meta.operationPath);
      var pathOutcome := SetAbsolutePath(Some(path), compiles);
      // concatPath never yields an empty path, so createPathRegExp cannot throw here
      assert pathOutcome.Pass?;

      CreateProduceProcessors();

      if |meta.methodParamTypes| != |meta.parameters| {
        return Fail(ParamCountMismatch(path));
      }

      AddParams(meta.parameters, meta.methodParamTypes);
      pathBuilder := Some(URLPathBuilder(path, paramMap));
      return Pass;
    }

    /** The parameter loop of `init`: parameter `idx` pairs swagger
        parameter `idx` with method parameter type `idx`, and is added with
        `addParam`. */
    method AddParams(parameters: seq<SwaggerParameter>, types: seq<ParamType>)
      requires |parameters| == |types|
      modifies this`paramList, this`paramMap
      ensures paramList == old(paramList) + BuildParams(parameters, types)
      ensures paramMap == PutAll(old(paramMap), ParamEntries(BuildParams(parameters, types)))
      ensures old(ParamsIndexed()) ==> ParamsIndexed()
    {
      ghost var params := BuildParams(parameters, types);
      for idx := 0 to |types|
        invariant paramList == old(paramList) + params[..idx]
        invariant paramMap == PutAll(old(paramMap), ParamEntries(params[..idx]))
      {
        var param := RestParam(idx, parameters[idx], types[idx]);
        AddParam(param);
        ParamStep(old(paramMap), params, idx);
      }
      assert params[..|types|] == params;
      ParamEntriesAppend(old(paramList), params);
      PutAllAppend(map[], ParamEntries(old(paramList)), ParamEntries(params));
    }

    /** `setAbsolutePath(path)`: records the path, then compiles it; a null
        or empty path throws after the path is recorded. */
    method SetAbsolutePath(path: Option<string>, compiles: string -> bool) returns (outcome: Outcome<InitError>)
      modifies this`absolutePath, this`absolutePathRegExp
      ensures absolutePath == path
      ensures outcome.Fail? <==> path.None? || path.value == ""
      ensures outcome.Fail? ==> outcome.error == NullRestUrl && absolutePathRegExp == old(absolutePathRegExp)
      ensures outcome.Pass? ==> absolutePathRegExp == CreatePathRegExp(path, compiles).value
    {
      absolutePath := path;
      var compiled := CreatePathRegExp(path, compiles);
      if compiled.Failure? {
        return Fail(compiled.error);
      }
      absolutePathRegExp := compiled.value;
      return Pass;
    }

    /** `addParam(param)`: appends to the list and files under its name. */
    method AddParam(param: RestParam)
      modifies this`paramList, this`paramMap
      ensures paramList == old(paramList) + [param]
      ensures paramMap == old(paramMap)[param.ParamName() := param]
      ensures old(ParamsIndexed()) ==> ParamsIndexed()
    {
      ghost var entries := ParamEntries(paramList);
      paramList := paramList + [param];
      paramMap := paramMap[param.ParamName() := param];
      assert ParamEntries(paramList) == entries + [(param.ParamName(), param)];
      PutAllSnoc(map[], entries, (param.ParamName(), param));
    }

    /** `getParamByName(name)`: `None` stands for `null`. */
    function GetParamByName(name: string): (r: Option<RestParam>)
      reads this
      ensures r.Some? <==> name in paramMap
      ensures r.Some? ==> r.value == paramMap[name]
    {
      if name in paramMap then Some(paramMap[name]) else None
    }

    /** `getParamByIndex(index)`: `None` stands for the
        `IndexOutOfBoundsException` of an index outside the list. */
    function GetParamByIndex(index: int): (r: Option<RestParam>)
      reads this
      ensures r.Some? <==> 0 <= index < |paramList|
      ensures r.Some? ==> r.value == paramList[index]
    {
      if 0 <= index < |paramList| then Some(paramList[index]) else None
    }

    /** A name finds the last registered parameter of that name, and nothing
        when no registered parameter has it. */
    lemma ParamByNameIsLast(name: string)
      requires ParamsIndexed()
      ensures GetParamByName(name).None? <==> forall i :: 0 <= i < |paramList| ==> paramList[i].ParamName() != name
      ensures forall i :: 0 <= i < |paramList| && paramList[i].ParamName() == name ==>
                (forall j :: i < j < |paramList| ==> paramList[j].ParamName() != name) ==>
                GetParamByName(name) == Some(paramList[i])
    {
      var es := ParamEntries(paramList);
      assert forall i :: 0 <= i < |es| ==> es[i] == (paramList[i].ParamName(), paramList[i]);
      PutAllLastWins(map[], es, name);
    }

    /** `createProduceProcessors()`. */
    method CreateProduceProcessors()
      modifies this`produceProcessorMap, this`defaultProcessor
      ensures ProcessorsBuilt(old(produceProcessorMap), old(defaultProcessor))
    {
      if produces.None? || |produces.value| == 0 {
        var all := manager.processors;
        for i := 0 to |all|
          invariant produceProcessorMap == PutAll(old(produceProcessorMap), NameEntries(all[..i]))
          invariant defaultProcessor == old(defaultProcessor)
        {
          var processor := all[i];
          assert NameEntries(all[..i + 1]) == NameEntries(all[..i]) + [(processor.name, processor)];
          PutAllSnoc(old(produceProcessorMap), NameEntries(all[..i]), (processor.name, processor));
          produceProcessorMap := produceProcessorMap[processor.name := processor];
        }
        assert all[..|all|] == all;
        return;
      }
      var declared := produces.value;
      for i := 0 to |declared|
        invariant produceProcessorMap == PutAll(old(produceProcessorMap), DeclaredEntries(declared[..i], manager.registered))
      {
        var produce := declared[i];
        assert declared[..i + 1][..i] == declared[..i];
        if produce !in manager.registered {
          // logged as not supported, and skipped
          continue;
        }
        var processor := manager.registered[produce];
        PutAllSnoc(old(produceProcessorMap), DeclaredEntries(declared[..i], manager.registered), (produce, processor));
        produceProcessorMap := produceProcessorMap[produce := processor];
      }
      assert declared[..|declared|] == declared;
      defaultProcessor := GetDefaultOrFirstProcessor();
    }

    /** `getDefaultOrFirstProcessor()`. */
    method GetDefaultOrFirstProcessor() returns (r: Option<Processor>)
      ensures IsDefaultOrFirst(produceProcessorMap, manager.defaultType, r)
    {
      if manager.defaultType in produceProcessorMap {
        return Some(produceProcessorMap[manager.defaultType]);
      }
      if produceProcessorMap == map[] {
        return None;
      }
      var someType :| someType in produceProcessorMap;
      return Some(produceProcessorMap[someType]);
    }

    /** `findProduceProcessor(type)`: `None` stands for `null`. */
    function FindProduceProcessor(contentType: string): (r: Option<Processor>)
      reads this
      ensures r.Some? <==> contentType in produceProcessorMap
      ensures r.Some? ==> r.value == produceProcessorMap[contentType]
    {
      if contentType in produceProcessorMap then Some(produceProcessorMap[contentType]) else None
    }

    /** `ensureFindProduceProcessor(types)`: the encoder for a request's
        accept header, `None` when nothing it names is supported. */
    method EnsureFindProduceProcessor(types: Option<string>) returns (r: Option<Processor>)
      ensures types.None? || types.value == "" ==> r == defaultProcessor
      ensures types.Some? && types.value != "" ==>
        var accepted := AcceptTypes(types.value);
        if Wildcard in accepted then r == defaultProcessor
        else if manager.defaultType in accepted then r == Some(manager.defaultProcessor)
        else r == FirstSupported(accepted, produceProcessorMap)
    {
      if types.None? || |types.value| == 0 {
        return defaultProcessor;
      }

      var typeArr := SplitAcceptTypes(types.value);
      var hasWildcard := ContainSpecType(typeArr, Wildcard);
      if hasWildcard {
        return defaultProcessor;
      }
      var hasDefault := ContainSpecType(typeArr, manager.defaultType);
      if hasDefault {
        return Some(manager.defaultProcessor);
      }

      for i := 0 to typeArr.Length
        invariant forall j :: 0 <= j < i ==> typeArr[j] !in produceProcessorMap
      {
        var processor := FindProduceProcessor(typeArr[i]);
        if processor.Some? {
          FirstSupportedAt(typeArr[..], produceProcessorMap, i);
          return processor;
        }
      }
      return None;
    }

    /** `splitAcceptTypes(types)`: splits on `,` and overwrites each token in
        place by the trimmed first `;`-piece that contains a slash. */
    method SplitAcceptTypes(types: string) returns (typeArr: array<string>)
      ensures typeArr[..] == AcceptTypes(types)
    {
      var tokens := Split(types, TypeSeparator);
      ghost var expected := AcceptTypes(types);
      typeArr := new string[|tokens|](i requires 0 <= i < |tokens| => tokens[i]);
      assert typeArr[..] == expected[..0] + tokens[0..];
      for idxX := 0 to typeArr.Length
        invariant typeArr[..] == expected[..idxX] + tokens[idxX..]
      {
        assert typeArr[idxX] == tokens[idxX];
        var media := MediaTypeOfToken(typeArr[idxX]);
        typeArr[idxX] := media;
        MapSeqAt(MediaTypeOf, tokens, idxX);
        SpliceStep(expected, tokens, idxX);
      }
      assert expected[..typeArr.Length] + tokens[typeArr.Length..] == expected;
    }

    /** Overwriting position `i` of `a[..i] + b[i..]` with `a[i]` moves the
        boundary one place on. */
    static lemma SpliceStep<T>(a: seq<T>, b: seq<T>, i: nat)
      requires |a| == |b| && i < |a|
      ensures (a[..i] + b[i..])[i := a[i]] == a[..i + 1] + b[i + 1..]
    {
    }

    /** The body of the outer loop of `splitAcceptTypes` for one token: the
        trimmed first `;`-piece that contains a slash, or the token itself. */
    static method MediaTypeOfToken(token: string) returns (media: string)
      ensures media == MediaTypeOf(token)
    {
      media := token;
      var strItems := Split(token, ParameterSeparator);
      var idxY := 0;
      while idxY < |strItems|
        invariant 0 <= idxY <= |strItems|
        invariant forall j :: 0 <= j < idxY ==> Slash !in strItems[j]
      {
        if Slash in strItems[idxY] {
          MediaTypeFound(token, idxY);
          media := Trim(strItems[idxY]);
          return;
        }
        idxY := idxY + 1;
      }
      MediaTypeNotFound(token);
    }

    /** `containSpecType(typeArr, specType)`. */
    method ContainSpecType(typeArr: array<string>, specType: string) returns (found: bool)
      ensures found <==> specType in typeArr[..]
    {
      for i := 0 to typeArr.Length
        invariant forall j :: 0 <= j < i ==> typeArr[j] != specType
      {
        if specType == typeArr[i] {
          return true;
        }
      }
      return false;
    }
  }
}
