/**
 * The Passport adapter: a `Strategy` object built from options and a setup
 * callback, whose `authenticate` reads the submitted one-time code, asks the
 * setup callback for the user's key, has the code verified and reports one
 * of error, fail or success.
 *
 * The helpers the adapter delegates to are inputs: `lookup(container, field)`
 * stands for `lookup` of `./utils`, `verify(code, key, window, period)` for
 * `totp.verify(code, key, {window, time: period})` of notp, and
 * `runSetup(setup, req, options)` for what the setup callback passes to its
 * done callback when called as `setup(req, options, done)`.
 */
module TotpStrategy {
  import opened Wrappers
  import opened JsValues

  /** What every strategy starts from unless the caller overrides it. */
  const DefaultOptions: Props := map[
    "codeField" := Str("code"),
    "defaultPeriod" := Num(30),
    "window" := Num(6)
  ]

  const SetupTypeError: JsError := Thrown(TypeError, "Invalid setup function")

  /** The parts of a Passport request the adapter reads. */
  datatype Request = Request(body: JsVal, query: JsVal, user: JsVal)

  /** The arguments of `done(err, key, period)`; an argument left off is `Undefined`. */
  datatype DoneArgs = DoneArgs(err: JsVal, key: JsVal, period: JsVal)

  /** Which of Passport's `error(err)`, `fail()` and `success(user)` the strategy calls. */
  datatype Outcome = Errored(err: JsVal) | Failed | Succeeded(user: JsVal)

  type Lookup = (JsVal, JsVal) -> JsVal
  type SetupRunner = (JsVal, Request, JsVal) -> DoneArgs
  type Verifier = (JsVal, JsVal, JsVal, JsVal) -> JsVal

  /**
   * The constructor's argument shuffle: with a function first, that function
   * is the setup and the second argument is the options when it is an object,
   * `{}` otherwise. Returns (options, setup).
   */
  function ShuffleArguments(options: JsVal, setup: JsVal): (JsVal, JsVal) {
    if options.Func? then (if setup.Obj? then setup else Obj(map[]), options) else (options, setup)
  }

  /** The `_options` and `_setup` fields a construction stores. */
  datatype Fields = Fields(options: Props, setup: JsVal)

  /** What `new Strategy(options, setup)` stores, or what it throws. */
  function Construct(options: JsVal, setup: JsVal): Result<Fields, JsError> {
    var (opts, fn) := ShuffleArguments(options, setup);
    if !fn.Func? then Failure(SetupTypeError) else Success(Fields(Assign(DefaultOptions, opts), fn))
  }

  /** The strategy object. */
  class Strategy {
    var options: Props
    var setup: JsVal
    var name: string

    constructor (fields: Fields)
      ensures options == fields.options && setup == fields.setup && name == "totp"
    {
      options := fields.options;
      setup := fields.setup;
      name := "totp";
    }

    /** `new Strategy(options, setup)`, following the source step by step. */
    static method New(options: JsVal, setup: JsVal) returns (r: Result<Strategy, JsError>)
      ensures Construct(options, setup).Failure? ==> r == Failure(Construct(options, setup).error)
      ensures Construct(options, setup).Success? ==>
                && r.Success? && fresh(r.value)
                && r.value.options == Construct(options, setup).value.options
                && r.value.setup == Construct(options, setup).value.setup
                && r.value.name == "totp"
    {
      var opts, fn := options, setup;
      if opts.Func? {
        var oset := fn;
        fn := opts;
        opts := if Truthy(oset) && oset.Obj? then oset else Obj(map[]);
      }
      if !fn.Func? {
        return Failure(SetupTypeError);
      }
      var s := new Strategy(Fields(Assign(DefaultOptions, opts), fn));
      return Success(s);
    }

    /** `cp({}, this._options, options)`: the per-request options over the stored ones. */
    function EffectiveOptions(perRequest: JsVal): (r: Props)
      reads this
      ensures forall k :: Get(r, k) == if k in OwnProps(perRequest) then OwnProps(perRequest)[k] else Get(options, k)
    {
      Assign(Assign(map[], Obj(options)), perRequest)
    }

    /** `strategy.authenticate(req, options)`. */
    function Authenticate(req: Request, perRequest: JsVal, lookup: Lookup, runSetup: SetupRunner, verify: Verifier): (o: Outcome)
      reads this
      ensures o.Errored? <==> Truthy(runSetup(setup, req, perRequest).err)
      ensures o.Errored? ==> o.err == runSetup(setup, req, perRequest).err
      ensures o.Succeeded? ==> o.user == req.user
    {
      var merged := EffectiveOptions(perRequest);
      var codeField, defaultPeriod, window := Get(merged, "codeField"), Get(merged, "defaultPeriod"), Get(merged, "window");
      var code := SubmittedCode(req, codeField, lookup);
      var done := runSetup(setup, req, perRequest);
      Dispatch(req, done, verify, code, window, TimeStep(done, defaultPeriod))
    }
  }

  /**
   * `lookup(req.body, field) || lookup(req.query, field)`: one of the two
   * lookups, the body's whenever it is truthy, and truthy exactly when either is.
   */
  function SubmittedCode(req: Request, codeField: JsVal, lookup: Lookup): (code: JsVal)
    ensures code == lookup(req.body, codeField) || code == lookup(req.query, codeField)
    ensures Truthy(lookup(req.body, codeField)) ==> code == lookup(req.body, codeField)
    ensures Truthy(code) <==> Truthy(lookup(req.body, codeField)) || Truthy(lookup(req.query, codeField))
  {
    Or(lookup(req.body, codeField), lookup(req.query, codeField))
  }

  /**
   * The default parameter `period = defaultPeriod` of the done callback: the
   * callback's period wins whenever it gives one, and the time step is left
   * undefined only when neither gives one.
   */
  function TimeStep(done: DoneArgs, defaultPeriod: JsVal): (period: JsVal)
    ensures period == done.period || period == defaultPeriod
    ensures done.period != Undefined ==> period == done.period
    ensures period == Undefined <==> done.period == Undefined && defaultPeriod == Undefined
  {
    if done.period == Undefined then defaultPeriod else done.period
  }

  /**
   * The body of the done callback. Exactly one of error, fail and success
   * results: error exactly for a truthy err (carrying it), success exactly
   * when there is no error and verify accepts (carrying the request's user).
   */
  function Dispatch(req: Request, done: DoneArgs, verify: Verifier, code: JsVal, window: JsVal, period: JsVal): (o: Outcome)
    ensures o.Errored? <==> Truthy(done.err)
    ensures o.Errored? ==> o.err == done.err
    ensures o.Succeeded? <==> !Truthy(done.err) && Truthy(verify(code, done.key, window, period))
    ensures o.Succeeded? ==> o.user == req.user
  {
    if Truthy(done.err) then Errored(done.err)
    else if !Truthy(verify(code, done.key, window, period)) then Failed
    else Succeeded(req.user)
  }
}

/** What the adapter promises, stated about `Construct` and `Strategy.Authenticate`. */
module TotpStrategyProperties {
  import opened Wrappers
  import opened JsValues
  import opened TotpStrategy

  /** With a function first, that function is the setup; the second argument is the options only when it is an object. */
  lemma FunctionFirstIsSetup(f: JsVal, second: JsVal)
    requires f.Func?
    ensures Construct(f, second).Success?
    ensures Construct(f, second).value.setup == f
    ensures second.Obj? ==> Construct(f, second).value.options == Assign(DefaultOptions, second)
    ensures !second.Obj? ==> Construct(f, second).value.options == DefaultOptions
  {
  }

  /** Construction throws, with a TypeError, exactly when neither argument order yields a setup function. */
  lemma InvalidSetupThrows(options: JsVal, setup: JsVal)
    ensures Construct(options, setup).Failure? <==> !options.Func? && !setup.Func?
    ensures Construct(options, setup).Failure? ==> Construct(options, setup).error == SetupTypeError
    ensures SetupTypeError.kind == TypeError
  {
  }

  /**
   * Option layering: a key the constructor options give overrides the default
   * (codeField 'code', defaultPeriod 30, window 6); the others keep it. The
   * setup function passed second is the one stored.
   */
  lemma ConstructedOptions(options: JsVal, setup: JsVal, key: string)
    requires !options.Func? && setup.Func?
    ensures Construct(options, setup).Success? && Construct(options, setup).value.setup == setup
    ensures Get(Construct(options, setup).value.options, key) ==
              if key in OwnProps(options) then OwnProps(options)[key] else Get(DefaultOptions, key)
    ensures Get(DefaultOptions, "codeField") == Str("code")
    ensures Get(DefaultOptions, "defaultPeriod") == Num(30)
    ensures Get(DefaultOptions, "window") == Num(6)
  {
  }

  /** Three layers: per-request options over constructor options over the defaults. */
  lemma OptionPrecedence(s: Strategy, options: JsVal, setup: JsVal, perRequest: JsVal, key: string)
    requires !options.Func? && setup.Func?
    requires s.options == Construct(options, setup).value.options
    ensures Get(s.EffectiveOptions(perRequest), key) ==
              if key in OwnProps(perRequest) then OwnProps(perRequest)[key]
              else if key in OwnProps(options) then OwnProps(options)[key]
              else Get(DefaultOptions, key)
  {
    ConstructedOptions(options, setup, key);
  }

  /** A setup error is reported as it is, whatever verify would say. */
  lemma SetupErrorIgnoresVerify(s: Strategy, req: Request, perRequest: JsVal, lookup: Lookup,
                                runSetup: SetupRunner, verify1: Verifier, verify2: Verifier)
    requires Truthy(runSetup(s.setup, req, perRequest).err)
    ensures s.Authenticate(req, perRequest, lookup, runSetup, verify1) == s.Authenticate(req, perRequest, lookup, runSetup, verify2)
    ensures s.Authenticate(req, perRequest, lookup, runSetup, verify1) == Errored(runSetup(s.setup, req, perRequest).err)
  {
  }

  /**
   * Without a setup error, the strategy succeeds with `req.user` exactly when
   * verify accepts the submitted code (the body's value, or the query's when
   * the body's is falsy) against the key, with the effective window and the
   * callback's period or else the effective default period; otherwise it fails.
   */
  lemma VerifiedOutcome(s: Strategy, req: Request, perRequest: JsVal, lookup: Lookup, runSetup: SetupRunner, verify: Verifier)
    requires !Truthy(runSetup(s.setup, req, perRequest).err)
    ensures var merged := s.EffectiveOptions(perRequest);
            var field := Get(merged, "codeField");
            var done := runSetup(s.setup, req, perRequest);
            var code := if Truthy(lookup(req.body, field)) then lookup(req.body, field) else lookup(req.query, field);
            var period := if done.period == Undefined then Get(merged, "defaultPeriod") else done.period;
            var accepted := Truthy(verify(code, done.key, Get(merged, "window"), period));
            s.Authenticate(req, perRequest, lookup, runSetup, verify) == if accepted then Succeeded(req.user) else Failed
  {
  }

  /** The query's code is consulted only when the body's is falsy. */
  lemma BodyCodeWins(req: Request, codeField: JsVal, lookup: Lookup, otherQuery: JsVal)
    requires Truthy(lookup(req.body, codeField))
    ensures SubmittedCode(req, codeField, lookup) == SubmittedCode(req.(query := otherQuery), codeField, lookup)
  {
  }

  /** A verdict of the done callback never depends on verify when the setup reports an error. */
  lemma DispatchIgnoresVerifyOnError(req: Request, done: DoneArgs, verify1: Verifier, verify2: Verifier,
                                     code: JsVal, window: JsVal, period: JsVal)
    requires Truthy(done.err)
    ensures Dispatch(req, done, verify1, code, window, period) == Dispatch(req, done, verify2, code, window, period)
  {
  }

  /**
   * With the default options untouched (neither the constructor nor the
   * request sets `defaultPeriod` or `window`) and a setup callback that gives
   * no period, the code is verified with window 6 and time step 30.
   */
  lemma DefaultPeriodUsed(s: Strategy, options: JsVal, setup: JsVal, req: Request, perRequest: JsVal,
                          lookup: Lookup, runSetup: SetupRunner, verify: Verifier)
    requires !options.Func? && setup.Func?
    requires s.options == Construct(options, setup).value.options && s.setup == setup
    requires "defaultPeriod" !in OwnProps(options) && "window" !in OwnProps(options)
    requires "defaultPeriod" !in OwnProps(perRequest) && "window" !in OwnProps(perRequest)
    requires !Truthy(runSetup(setup, req, perRequest).err) && runSetup(setup, req, perRequest).period == Undefined
    ensures var done := runSetup(setup, req, perRequest);
            var code := SubmittedCode(req, Get(s.EffectiveOptions(perRequest), "codeField"), lookup);
            s.Authenticate(req, perRequest, lookup, runSetup, verify) ==
              if Truthy(verify(code, done.key, Num(6), Num(30))) then Succeeded(req.user) else Failed
  {
    OptionPrecedence(s, options, setup, perRequest, "defaultPeriod");
    OptionPrecedence(s, options, setup, perRequest, "window");
  }
}
