/** The library's entry point: argument validation in `init`, the
    frontend/backend version comparison, and `deleteSubsets`. */
module FractalMain {
  import opened Outcomes
  import opened Js
  import Store

  /** The object `init` destructures. An absent property is `Undefined`. */
  datatype InitArgs = InitArgs(handler: JsValue, dataSource: JsValue, fractalisNode: JsValue,
                               getAuth: JsValue, options: JsValue)

  /** A constructed library instance, with the configuration it was built from. */
  datatype FractalJs = FractalJs(handler: JsValue, dataSource: JsValue, fractalisNode: JsValue,
                                 getAuth: JsValue, options: JsValue)

  /** The error `init` throws: "<property> property must not be <value>". */
  datatype InitError = MustNotBe(property: string, value: JsValue)

  /** `init` as written: the four checks run in order, but every message names the
      `handler` property, whichever argument was missing. */
  function InitAsWritten(a: InitArgs): (r: Result<FractalJs, InitError>)
    ensures r.Err? ==> r.error.property == "handler"
  {
    if !Truthy(a.handler) then Err(MustNotBe("handler", a.handler))
    else if !Truthy(a.dataSource) then Err(MustNotBe("handler", a.dataSource))
    else if !Truthy(a.fractalisNode) then Err(MustNotBe("handler", a.fractalisNode))
    else if !Truthy(a.getAuth) then Err(MustNotBe("handler", a.getAuth))
    else Ok(FractalJs(a.handler, a.dataSource, a.fractalisNode, a.getAuth, a.options))
  }

  /** `init` with each message naming the property that failed its check. */
  function Init(a: InitArgs): (r: Result<FractalJs, InitError>)
    ensures r.Ok? <==> Truthy(a.handler) && Truthy(a.dataSource) && Truthy(a.fractalisNode) && Truthy(a.getAuth)
    ensures r.Ok? ==> r.value == FractalJs(a.handler, a.dataSource, a.fractalisNode, a.getAuth, a.options)
    ensures !Truthy(a.handler) ==> r == Err(MustNotBe("handler", a.handler))
    ensures Truthy(a.handler) && !Truthy(a.dataSource) ==> r == Err(MustNotBe("dataSource", a.dataSource))
    ensures Truthy(a.handler) && Truthy(a.dataSource) && !Truthy(a.fractalisNode)
            ==> r == Err(MustNotBe("fractalisNode", a.fractalisNode))
    ensures Truthy(a.handler) && Truthy(a.dataSource) && Truthy(a.fractalisNode) && !Truthy(a.getAuth)
            ==> r == Err(MustNotBe("getAuth", a.getAuth))
  {
    if !Truthy(a.handler) then Err(MustNotBe("handler", a.handler))
    else if !Truthy(a.dataSource) then Err(MustNotBe("dataSource", a.dataSource))
    else if !Truthy(a.fractalisNode) then Err(MustNotBe("fractalisNode", a.fractalisNode))
    else if !Truthy(a.getAuth) then Err(MustNotBe("getAuth", a.getAuth))
    else Ok(FractalJs(a.handler, a.dataSource, a.fractalisNode, a.getAuth, a.options))
  }

  /** The corrected `init` differs from the written one only in the property its
      message names: it throws for the same arguments, with the same offending
      value, and builds the same instance otherwise. */
  lemma InitDiffersOnlyInMessage(a: InitArgs)
    ensures Init(a).Ok? <==> InitAsWritten(a).Ok?
    ensures Init(a).Ok? ==> Init(a) == InitAsWritten(a)
    ensures Init(a).Err? ==> Init(a).error.value == InitAsWritten(a).error.value
  {
  }

  /** The written message blames `handler` when `dataSource` is the empty string. */
  lemma InitAsWrittenBlamesHandler()
    ensures var a := InitArgs(Str("foo"), Str(""), Str("foo"), Func, Undefined);
            && InitAsWritten(a) == Err(MustNotBe("handler", Str("")))
            && Init(a) == Err(MustNotBe("dataSource", Str("")))
  {
  }

  /** The initializer's test cases: each call misses one property and throws;
      the options may be absent when the four others are given. */
  lemma InitTestCases()
    ensures Init(InitArgs(Str(""), Str("foo"), Str("foo"), Undefined, Undefined)).Err?
    ensures Init(InitArgs(Str("foo"), Str(""), Str("foo"), Undefined, Undefined)).Err?
    ensures Init(InitArgs(Str("foo"), Str("foo"), Str(""), Undefined, Undefined)).Err?
    ensures Init(InitArgs(Undefined, Str("foo"), Str("foo"), Undefined, Undefined)).Err?
    ensures Init(InitArgs(Str("foo"), Undefined, Str("foo"), Undefined, Undefined)).Err?
    ensures Init(InitArgs(Str("foo"), Str("foo"), Undefined, Undefined, Undefined)).Err?
    ensures Init(InitArgs(Str("ada"), Str("https://my.service.org/"), Str("http://fractalis.uni.lu/"), Func, Undefined)).Ok?
  {
  }

  /** The decision of `_versionCheck`: warn when the major or the minor component
      (the first two dot-separated parts, `undefined` when missing) differ. */
  function VersionMismatch(frontend: string, backend: string): (warn: bool)
    ensures frontend == backend ==> !warn
  {
    var f := Split(frontend, '.');
    var b := Split(backend, '.');
    Part(f, 0) != Part(b, 0) || Part(f, 1) != Part(b, 1)
  }

  /** The decision does not depend on which side is the frontend. */
  lemma VersionMismatchSymmetric(frontend: string, backend: string)
    ensures VersionMismatch(frontend, backend) == VersionMismatch(backend, frontend)
  {
  }

  /** For versions written as dot-joined components with at least a major and a
      minor part, the check warns exactly when the majors or the minors differ;
      the patch and anything after it are ignored. */
  lemma VersionWarnsIffMajorOrMinorDiffers(f: seq<string>, b: seq<string>)
    requires |f| >= 2 && |b| >= 2
    requires forall i :: 0 <= i < |f| ==> '.' !in f[i]
    requires forall i :: 0 <= i < |b| ==> '.' !in b[i]
    ensures VersionMismatch(Join(f, '.'), Join(b, '.')) <==> f[0] != b[0] || f[1] != b[1]
  {
    SplitJoin(f, '.');
    SplitJoin(b, '.');
  }

  /** A version without a minor part mismatches any version that has one. */
  lemma MissingMinorWarns(major: string, minor: string, rest: string)
    requires '.' !in major
    ensures VersionMismatch(major, major + "." + minor + rest)
  {
    assert '.' !in Split(major, '.')[0];
    SplitAfterPiece(major, minor + rest, '.');
    assert major + "." + minor + rest == major + ['.'] + (minor + rest);
  }

  /** `deleteSubsets()`: dispatch `setSubsets` with the empty list, which the
      action always accepts. */
  function DeleteSubsets(s: Store.State): (r: Store.State)
    ensures Store.DispatchSetSubsets(s, Arr([])) == Ok(r)
    ensures r.subsets == Arr([]) && r.(subsets := s.subsets) == s
  {
    var dispatched := Store.DispatchSetSubsets(s, Arr([]));
    dispatched.value
  }
}
