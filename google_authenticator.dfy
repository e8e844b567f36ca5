/**
 * The Google Authenticator provisioning helper: `register` turns a
 * registration spec into a secret, an `otpauth://` key URI and a QR image of
 * that URI.
 *
 * `Provision` states declaratively what a registration is (validation in the
 * source's order, issuer/prefix resolution, secret choice, the URI as a head
 * followed by a list of `&key=value` parameters); `Register` is the source's
 * step-by-step procedure and is proved to compute exactly `Provision`. The
 * lemmas state the promises of `register` about `Provision`.
 *
 * Random bytes and the QR image encoder are inputs: `randomBytes(n)` stands
 * for `crypto.randomBytes(n)`, `qrImage(uri)` for `qr.imageSync(uri, ...)`.
 */
module GoogleAuthenticator {
  import opened Wrappers
  import opened JsValues
  import Base32

  const Scheme: string := "otpauth://"
  const Types: seq<string> := ["totp", "hotp"]
  const Algorithms: seq<string> := ["SHA1", "SHA256", "SHA512"]
  const MinSecretSize: int := 8
  const MaxSecretSize: int := 128

  /** The fields every spec has unless the caller gives them. */
  const DefaultSpec: Props := map[
    "counter" := Num(0),
    "prefix" := Bool(true),
    "secretSize" := Num(32),
    "type" := Str(Types[0])
  ]

  const NameTypeError: JsError := Thrown(TypeError, "spec.name is mandatory and MUST be a string")
  const NameEmptyError: JsError := Thrown(RangeError, "spec.name MUST NOT be empty")
  const SizeTypeError: JsError := Thrown(TypeError, "spec.secretSize MUST only be a number if specified")
  const SizeRangeError: JsError := Thrown(RangeError,
    "spec.secretSize MUST be between " + NumberToString(MinSecretSize) + " and " + NumberToString(MaxSecretSize))
  /**
   * What an unknown type actually throws: the message expression reads the
   * property `O_TYPES` of a string literal, which is `undefined`, and calling
   * `.join` on it throws a TypeError before the intended RangeError is built.
   * The text is the one V8 uses.
   */
  const TypeListError: JsError := Thrown(TypeError, "Cannot read properties of undefined (reading 'join')")
  const CounterError: JsError := Thrown(TypeError, "spec.counter is mandatory for HOTP")

  /** The record `register` returns. */
  datatype Registration = Registration(secret: string, qr: string, uri: string, spec: Props)

  /** A source of random bytes in the manner of `crypto.randomBytes`: asked for n bytes, it yields exactly n. */
  type RandomBytes = f: nat -> seq<Base32.byte> | forall n :: |f(n)| == n
    witness (n: nat) => seq<Base32.byte>(n, i => 0)
  type QrEncoder = string -> string

  /** `Object.assign({}, DEF_SPEC, spec)`, after a bare string has been turned into `{name: spec}`. */
  function Normalize(arg: JsVal): Props {
    DefaultSpec + (if arg.Str? then map["name" := arg] else OwnProps(arg))
  }

  /** `O_TYPES.includes(t)`. */
  predicate IsType(t: JsVal) {
    t == Str(Types[0]) || t == Str(Types[1])
  }

  predicate IsHotp(spec: Props) {
    Get(spec, "type") == Str(Types[1])
  }

  predicate NameOk(spec: Props) {
    Get(spec, "name").Str? && Trim(Get(spec, "name").s) != ""
  }

  predicate SizeOk(spec: Props) {
    var size := Get(spec, "secretSize");
    size.Num? && MinSecretSize <= size.n <= MaxSecretSize
  }

  predicate CounterOk(spec: Props) {
    IsHotp(spec) ==> Get(spec, "counter").Num?
  }

  /** The exception `register` throws for a spec, if any, checked in the source's order. */
  function Validate(spec: Props): (e: Option<JsError>)
    ensures e.None? <==> NameOk(spec) && SizeOk(spec) && IsType(Get(spec, "type")) && CounterOk(spec)
    ensures !Get(spec, "name").Str? ==> e == Some(NameTypeError)
    ensures Get(spec, "name").Str? && !NameOk(spec) ==> e == Some(NameEmptyError)
    ensures NameOk(spec) && !Get(spec, "secretSize").Num? ==> e == Some(SizeTypeError)
    ensures NameOk(spec) && Get(spec, "secretSize").Num? && !SizeOk(spec) ==> e == Some(SizeRangeError)
    ensures NameOk(spec) && SizeOk(spec) && !IsType(Get(spec, "type")) ==> e == Some(TypeListError)
    ensures NameOk(spec) && SizeOk(spec) && IsType(Get(spec, "type")) && !CounterOk(spec) ==> e == Some(CounterError)
  {
    var name := Get(spec, "name");
    var size := Get(spec, "secretSize");
    if !name.Str? then Some(NameTypeError)
    else if Trim(name.s) == "" then Some(NameEmptyError)
    else if !size.Num? then Some(SizeTypeError)
    else if size.n < MinSecretSize || size.n > MaxSecretSize then Some(SizeRangeError)
    else if !IsType(Get(spec, "type")) then Some(TypeListError)
    else if IsHotp(spec) && !Get(spec, "counter").Num? then Some(CounterError)
    else None
  }

  /**
   * Issuer/prefix cross-defaulting: a textual issuer fills a prefix left at
   * `true`; otherwise a textual prefix fills an issuer set to `true`.
   */
  function ResolveIssuerPrefix(spec: Props): (r: Props)
    ensures forall k :: k != "prefix" && k != "issuer" ==> Get(r, k) == Get(spec, k)
  {
    var issuer, prefix := Get(spec, "issuer"), Get(spec, "prefix");
    if issuer.Str? && prefix == Bool(true) then spec["prefix" := issuer]
    else if prefix.Str? && issuer == Bool(true) then spec["issuer" := prefix]
    else spec
  }

  /** The account label of the URI: the trimmed name, after the trimmed prefix and ':' when the prefix is text. */
  function Label(spec: Props): string
    requires Get(spec, "name").Str?
  {
    var name := Trim(Get(spec, "name").s);
    var prefix := Get(spec, "prefix");
    if prefix.Str? then Trim(prefix.s) + ":" + name else name
  }

  /** The secret: the caller's text when given, otherwise fresh random bytes in base 32 with '=' removed. */
  function ChooseSecret(spec: Props, randomBytes: RandomBytes): string
    requires SizeOk(spec)
  {
    var given := Get(spec, "secret");
    if given.Str? then given.s else RemoveAll(Base32.Encode(randomBytes(Get(spec, "secretSize").n)), '=')
  }

  function IssuerParam(spec: Props): seq<(string, string)> {
    var issuer := Get(spec, "issuer");
    if issuer.Str? then [("issuer", Trim(issuer.s))] else []
  }

  function AlgorithmParam(spec: Props): seq<(string, string)> {
    var algorithm := Get(spec, "algorithm");
    if algorithm.Str? && algorithm.s in Algorithms then [("algorithm", algorithm.s)] else []
  }

  function DigitsParam(spec: Props): seq<(string, string)> {
    var digits := Get(spec, "digits");
    if digits.Num? then [("digits", NumberToString(digits.n))] else []
  }

  /** The counter of a hotp registration, or the period of a totp one when it is a number. */
  function StepParam(spec: Props): seq<(string, string)> {
    var counter, period := Get(spec, "counter"), Get(spec, "period");
    if IsHotp(spec) then (if counter.Num? then [("counter", NumberToString(counter.n))] else [])
    else if period.Num? then [("period", NumberToString(period.n))] else []
  }

  /** The optional URI parameters, in the order the URI carries them. */
  function Params(spec: Props): seq<(string, string)> {
    IssuerParam(spec) + AlgorithmParam(spec) + DigitsParam(spec) + StepParam(spec)
  }

  /** One URI parameter, `&key=value`. */
  function Param(key: string, value: string): string {
    "&" + key + "=" + value
  }

  /** `&key=value` for each parameter in turn. */
  function Query(ps: seq<(string, string)>): (q: string)
    ensures q == [] <==> ps == []
    ensures q != [] ==> q[0] == '&'
  {
    if ps == [] then "" else Query(ps[..|ps| - 1]) + Param(ps[|ps| - 1].0, ps[|ps| - 1].1)
  }

  /** The full key URI of a validated, resolved spec with its secret. */
  function KeyUri(spec: Props, secret: string): string
    requires Get(spec, "name").Str? && Get(spec, "type").Str?
  {
    UriHead(spec, secret) + Query(Params(spec))
  }

  /** The URI up to and including the secret. */
  function UriHead(spec: Props, secret: string): string
    requires Get(spec, "name").Str? && Get(spec, "type").Str?
  {
    Scheme + Get(spec, "type").s + "/" + Label(spec) + "?secret=" + secret
  }

  /** What `register(arg)` returns or throws. */
  function Provision(arg: JsVal, randomBytes: RandomBytes, qrImage: QrEncoder): Result<Registration, JsError> {
    var spec := Normalize(arg);
    match Validate(spec)
    case Some(e) => Failure(e)
    case None =>
      var resolved := ResolveIssuerPrefix(spec);
      var secret := ChooseSecret(resolved, randomBytes);
      var uri := KeyUri(resolved, secret);
      Success(Registration(secret, qrImage(uri), uri, resolved))
  }

  lemma {:induction false} QueryConcat(a: seq<(string, string)>, b: seq<(string, string)>)
    ensures Query(a + b) == Query(a) + Query(b)
    decreases |b|
  {
    if b == [] {
      assert a + b == a;
    } else {
      var init, last := b[..|b| - 1], b[|b| - 1];
      var tail := Param(last.0, last.1);
      assert (a + b)[..|a + b| - 1] == a + init;
      assert (a + b)[|a + b| - 1] == last;
      QueryConcat(a, init);
      calc {
        Query(a + b);
        Query(a + init) + tail;
        (Query(a) + Query(init)) + tail;
        { AppendAssoc(Query(a), Query(init), tail); }
        Query(a) + (Query(init) + tail);
        Query(a) + Query(b);
      }
    }
  }

  lemma AppendAssoc(x: string, y: string, z: string)
    ensures x + (y + z) == (x + y) + z
  {
  }

  lemma QueryOfFour(head: string, i: seq<(string, string)>, a: seq<(string, string)>,
                    d: seq<(string, string)>, s: seq<(string, string)>)
    ensures head + Query(i + a + d + s) == head + Query(i) + Query(a) + Query(d) + Query(s)
  {
    var qi, qa, qd, qs := Query(i), Query(a), Query(d), Query(s);
    QueryConcat(i + a + d, s);
    QueryConcat(i + a, d);
    QueryConcat(i, a);
    calc {
      head + Query(i + a + d + s);
      head + (((qi + qa) + qd) + qs);
      { AppendAssoc(head, (qi + qa) + qd, qs); }
      (head + ((qi + qa) + qd)) + qs;
      { AppendAssoc(head, qi + qa, qd); }
      ((head + (qi + qa)) + qd) + qs;
      { AppendAssoc(head, qi, qa); }
      (((head + qi) + qa) + qd) + qs;
    }
  }

  /** The query of the parameter list is the queries of its four parts, one after another. */
  lemma QueryOfParams(spec: Props, head: string)
    ensures head + Query(Params(spec))
         == head + Query(IssuerParam(spec)) + Query(AlgorithmParam(spec)) + Query(DigitsParam(spec)) + Query(StepParam(spec))
  {
    QueryOfFour(head, IssuerParam(spec), AlgorithmParam(spec), DigitsParam(spec), StepParam(spec));
  }

  /** Appending the issuer parameter when the issuer is text appends the query of `IssuerParam`. */
  lemma IssuerStep(spec: Props, url: string)
    ensures (if Get(spec, "issuer").Str? then url + Param("issuer", Trim(Get(spec, "issuer").s)) else url)
         == url + Query(IssuerParam(spec))
  {
  }

  lemma AlgorithmStep(spec: Props, url: string)
    ensures (if Get(spec, "algorithm").Str? && Get(spec, "algorithm").s in Algorithms
             then url + Param("algorithm", Get(spec, "algorithm").s) else url)
         == url + Query(AlgorithmParam(spec))
  {
  }

  lemma DigitsStep(spec: Props, url: string)
    ensures (if Get(spec, "digits").Num? then url + Param("digits", NumberToString(Get(spec, "digits").n)) else url)
         == url + Query(DigitsParam(spec))
  {
  }

  lemma StepStep(spec: Props, url: string)
    requires CounterOk(spec)
    ensures (if IsHotp(spec) then url + Param("counter", NumberToString(Get(spec, "counter").n))
             else if Get(spec, "period").Num? then url + Param("period", NumberToString(Get(spec, "period").n))
             else url)
         == url + Query(StepParam(spec))
  {
  }

  /** Once name, size and type have passed, only the hotp counter check is left. */
  lemma ValidatedUpToCounter(spec: Props)
    requires NameOk(spec) && SizeOk(spec) && IsType(Get(spec, "type"))
    ensures Validate(spec) == if CounterOk(spec) then None else Some(CounterError)
  {
  }

  /** A spec that fails validation makes `register` throw that failure. */
  lemma Rejected(arg: JsVal, randomBytes: RandomBytes, qrImage: QrEncoder, e: JsError)
    requires Validate(Normalize(arg)) == Some(e)
    ensures Provision(arg, randomBytes, qrImage) == Failure(e)
  {
  }

  /** A spec that passes validation yields the record built from its resolved form. */
  lemma Accepted(arg: JsVal, randomBytes: RandomBytes, qrImage: QrEncoder, spec: Props, secret: string, uri: string)
    requires Validate(Normalize(arg)) == None
    requires spec == ResolveIssuerPrefix(Normalize(arg))
    requires secret == ChooseSecret(spec, randomBytes)
    requires uri == KeyUri(spec, secret)
    ensures Provision(arg, randomBytes, qrImage) == Success(Registration(secret, qrImage(uri), uri, spec))
  {
  }

  /**
   * The URI assembly of `register`: the head, then `&issuer=`, `&algorithm=`
   * and `&digits=` when they apply, then the hotp counter (whose absence
   * throws) or the totp period.
   */
  method AssembleUri(spec: Props, name: string, secret: string) returns (r: Result<string, JsError>)
    requires Get(spec, "name").Str? && name == Label(spec) && IsType(Get(spec, "type"))
    ensures CounterOk(spec) ==> r == Success(KeyUri(spec, secret))
    ensures !CounterOk(spec) ==> r == Failure(CounterError)
  {
    var authUrl := Scheme + Get(spec, "type").s + "/" + name + "?secret=" + secret;
    ghost var head := authUrl;

    if Get(spec, "issuer").Str? {
      authUrl := authUrl + Param("issuer", Trim(Get(spec, "issuer").s));
    }
    IssuerStep(spec, head);
    ghost var withIssuer := authUrl;

    var algorithm := Get(spec, "algorithm");
    if algorithm.Str? {
      if algorithm.s in Algorithms {
        authUrl := authUrl + Param("algorithm", algorithm.s);
      }
      // otherwise the source logs the rejected algorithm and goes on without it
    }
    AlgorithmStep(spec, withIssuer);
    ghost var withAlgorithm := authUrl;

    if Get(spec, "digits").Num? {
      authUrl := authUrl + Param("digits", NumberToString(Get(spec, "digits").n));
    }
    DigitsStep(spec, withAlgorithm);
    ghost var withDigits := authUrl;

    if Get(spec, "type") == Str(Types[1]) {
      if Get(spec, "counter").Num? {
        authUrl := authUrl + Param("counter", NumberToString(Get(spec, "counter").n));
      } else {
        return Failure(CounterError);
      }
    } else if Get(spec, "period").Num? {
      authUrl := authUrl + Param("period", NumberToString(Get(spec, "period").n));
    }
    StepStep(spec, withDigits);
    QueryOfParams(spec, head);
    return Success(authUrl);
  }

  /** `register` as the source writes it: validate, resolve, choose the secret, assemble the URI. */
  method Register(arg: JsVal, randomBytes: RandomBytes, qrImage: QrEncoder) returns (r: Result<Registration, JsError>)
    ensures r == Provision(arg, randomBytes, qrImage)
  {
    var spec: Props := if arg.Str? then map["name" := arg] else OwnProps(arg);
    spec := DefaultSpec + spec;
    ghost var given := spec;
    assert given == Normalize(arg);
    if !Get(spec, "name").Str? {
      Rejected(arg, randomBytes, qrImage, NameTypeError);
      return Failure(NameTypeError);
    }
    var name := Trim(Get(spec, "name").s);
    if name == "" {
      Rejected(arg, randomBytes, qrImage, NameEmptyError);
      return Failure(NameEmptyError);
    }
    var size := Get(spec, "secretSize");
    if !size.Num? {
      Rejected(arg, randomBytes, qrImage, SizeTypeError);
      return Failure(SizeTypeError);
    }
    if size.n < MinSecretSize || size.n > MaxSecretSize {
      Rejected(arg, randomBytes, qrImage, SizeRangeError);
      return Failure(SizeRangeError);
    }
    if !IsType(Get(spec, "type")) {
      Rejected(arg, randomBytes, qrImage, TypeListError);
      return Failure(TypeListError);
    }
    ValidatedUpToCounter(given);

    if Get(spec, "issuer").Str? && Get(spec, "prefix") == Bool(true) {
      spec := spec["prefix" := Get(spec, "issuer")];
    } else if Get(spec, "prefix").Str? && Get(spec, "issuer") == Bool(true) {
      spec := spec["issuer" := Get(spec, "prefix")];
    }
    assert spec == ResolveIssuerPrefix(given);

    if Get(spec, "prefix").Str? {
      name := Trim(Get(spec, "prefix").s) + ":" + name;
    }

    var secret: string;
    if Get(spec, "secret").Str? {
      secret := Get(spec, "secret").s;
    } else {
      secret := RemoveAll(Base32.Encode(randomBytes(size.n)), '=');
    }

    var uri := AssembleUri(spec, name, secret);
    if uri.Failure? {
      Rejected(arg, randomBytes, qrImage, CounterError);
      return Failure(uri.error);
    }
    var authUrl := uri.value;

    var qrCode := qrImage(authUrl);
    Accepted(arg, randomBytes, qrImage, spec, secret, authUrl);
    return Success(Registration(secret, qrCode, authUrl, spec));
  }
}

/** What `register` promises, stated about `Provision`. */
module GoogleAuthenticatorProperties {
  import opened Wrappers
  import opened JsValues
  import Base32
  import opened GoogleAuthenticator

  /** A bare string is treated exactly as `{name: s}`. */
  lemma StringSpecIsName(s: string, randomBytes: RandomBytes, qrImage: QrEncoder)
    ensures Provision(Str(s), randomBytes, qrImage) == Provision(Obj(map["name" := Str(s)]), randomBytes, qrImage)
  {
  }

  /**
   * A field the caller gives keeps the caller's value (even `undefined`); any
   * other field reads as its default: counter 0, prefix true, secretSize 32,
   * type 'totp', and `undefined` for the rest.
   */
  lemma DefaultsFillUnspecified(props: Props, key: string)
    ensures key in props ==> Get(Normalize(Obj(props)), key) == props[key]
    ensures key !in props ==> Get(Normalize(Obj(props)), key) == Get(DefaultSpec, key)
    ensures Get(DefaultSpec, "counter") == Num(0) && Get(DefaultSpec, "prefix") == Bool(true)
    ensures Get(DefaultSpec, "secretSize") == Num(32) && Get(DefaultSpec, "type") == Str("totp")
    ensures key !in {"counter", "prefix", "secretSize", "type"} ==> Get(DefaultSpec, key) == Undefined
  {
  }

  /** A name that is not a string throws a TypeError; one that is blank after trimming throws a RangeError. */
  lemma NameRules(arg: JsVal, randomBytes: RandomBytes, qrImage: QrEncoder)
    ensures !Get(Normalize(arg), "name").Str? ==>
              Provision(arg, randomBytes, qrImage) == Failure(NameTypeError) && NameTypeError.kind == TypeError
    ensures Get(Normalize(arg), "name").Str? && Trim(Get(Normalize(arg), "name").s) == "" ==>
              Provision(arg, randomBytes, qrImage) == Failure(NameEmptyError) && NameEmptyError.kind == RangeError
  {
  }

  /** Names made only of white space are the blank ones. */
  lemma BlankNameRejected(name: string, randomBytes: RandomBytes, qrImage: QrEncoder)
    requires forall k :: 0 <= k < |name| ==> IsWhiteSpace(name[k])
    ensures Provision(Str(name), randomBytes, qrImage) == Failure(NameEmptyError)
  {
    TrimEmptyIffBlank(name);
  }

  /**
   * With a valid name, a secretSize that is not a number throws a TypeError and
   * one outside [8, 128] a RangeError. Nothing here depends on the `secret`
   * field: the size is checked even when the caller supplies the secret.
   */
  lemma SecretSizeRules(arg: JsVal, randomBytes: RandomBytes, qrImage: QrEncoder)
    requires NameOk(Normalize(arg))
    ensures !Get(Normalize(arg), "secretSize").Num? ==>
              Provision(arg, randomBytes, qrImage) == Failure(SizeTypeError) && SizeTypeError.kind == TypeError
    ensures Get(Normalize(arg), "secretSize").Num? && !(8 <= Get(Normalize(arg), "secretSize").n <= 128) ==>
              Provision(arg, randomBytes, qrImage) == Failure(SizeRangeError) && SizeRangeError.kind == RangeError
  {
  }

  /** With a valid name and size, a type other than 'totp' or 'hotp' throws, and what is thrown is a TypeError. */
  lemma UnknownTypeThrowsTypeError(arg: JsVal, randomBytes: RandomBytes, qrImage: QrEncoder)
    requires NameOk(Normalize(arg)) && SizeOk(Normalize(arg))
    requires Get(Normalize(arg), "type") != Str("totp") && Get(Normalize(arg), "type") != Str("hotp")
    ensures Provision(arg, randomBytes, qrImage) == Failure(TypeListError)
    ensures TypeListError.kind == TypeError
  {
  }

  /** With everything else valid, a hotp spec whose counter is not a number throws a TypeError. */
  lemma HotpCounterRequired(arg: JsVal, randomBytes: RandomBytes, qrImage: QrEncoder)
    requires NameOk(Normalize(arg)) && SizeOk(Normalize(arg)) && Get(Normalize(arg), "type") == Str("hotp")
    requires !Get(Normalize(arg), "counter").Num?
    ensures Provision(arg, randomBytes, qrImage) == Failure(CounterError) && CounterError.kind == TypeError
  {
  }

  /** A record is produced exactly when the name, the size, the type and (for hotp) the counter are valid. */
  lemma SucceedsExactlyWhen(arg: JsVal, randomBytes: RandomBytes, qrImage: QrEncoder)
    ensures Provision(arg, randomBytes, qrImage).Success? <==>
              var spec := Normalize(arg);
              NameOk(spec) && SizeOk(spec) && IsType(Get(spec, "type")) && CounterOk(spec)
  {
  }

  /**
   * Issuer/prefix cross-defaulting: a textual issuer with prefix `true` makes
   * the prefix the issuer; a textual prefix with issuer `true` makes the issuer
   * the prefix; otherwise nothing changes.
   */
  lemma IssuerPrefixResolution(spec: Props)
    ensures Get(spec, "issuer").Str? && Get(spec, "prefix") == Bool(true) ==>
              Get(ResolveIssuerPrefix(spec), "prefix") == Get(spec, "issuer")
              && Get(ResolveIssuerPrefix(spec), "issuer") == Get(spec, "issuer")
    ensures !(Get(spec, "issuer").Str? && Get(spec, "prefix") == Bool(true))
              && Get(spec, "prefix").Str? && Get(spec, "issuer") == Bool(true) ==>
              Get(ResolveIssuerPrefix(spec), "issuer") == Get(spec, "prefix")
              && Get(ResolveIssuerPrefix(spec), "prefix") == Get(spec, "prefix")
    ensures !(Get(spec, "issuer").Str? && Get(spec, "prefix") == Bool(true))
              && !(Get(spec, "prefix").Str? && Get(spec, "issuer") == Bool(true)) ==>
              ResolveIssuerPrefix(spec) == spec
  {
  }

  /**
   * The layout of a produced URI, in terms of the caller's spec: scheme, type,
   * '/', the account label, '?secret=', the secret, then the `&key=value`
   * parameters. The label is the trimmed name, behind the trimmed issuer (or
   * else the textual prefix) and ':' when there is one; a prefix of `false`
   * leaves the name unprefixed. Neither the label nor a supplied secret is
   * escaped, so the secret can be read back from the URI only when the label
   * has no "secret=" and the secret has no '&'.
   */
  lemma UriLayout(arg: JsVal, randomBytes: RandomBytes, qrImage: QrEncoder)
    requires Provision(arg, randomBytes, qrImage).Success?
    ensures var spec := Normalize(arg);
            var reg := Provision(arg, randomBytes, qrImage).value;
            var name := Trim(Get(spec, "name").s);
            var issuer := Get(spec, "issuer");
            var prefix := Get(spec, "prefix");
            var account := if issuer.Str? && prefix == Bool(true) then Trim(issuer.s) + ":" + name
              else if prefix.Str? then Trim(prefix.s) + ":" + name
              else name;
            && (prefix == Bool(false) ==> account == name)
            && reg.spec == ResolveIssuerPrefix(spec)
            && reg.uri == Scheme + Get(spec, "type").s + "/" + account + "?secret=" + reg.secret + Query(Params(reg.spec))
            && (Query(Params(reg.spec)) == "" || Query(Params(reg.spec))[0] == '&')
            && reg.qr == qrImage(reg.uri)
  {
  }

  /** A textual `secret` given by the caller is used as it is. */
  lemma SuppliedSecretVerbatim(arg: JsVal, randomBytes: RandomBytes, qrImage: QrEncoder)
    requires Provision(arg, randomBytes, qrImage).Success?
    requires Get(Normalize(arg), "secret").Str?
    ensures Provision(arg, randomBytes, qrImage).value.secret == Get(Normalize(arg), "secret").s
  {
  }

  /**
   * Otherwise the secret is `secretSize` random bytes in base 32 with the '='
   * padding removed: ceil(8 * size / 5) characters (so at least 13), each from
   * the base 32 alphabet, none of them '='.
   */
  lemma GeneratedSecretUnpadded(arg: JsVal, randomBytes: RandomBytes, qrImage: QrEncoder)
    requires Provision(arg, randomBytes, qrImage).Success?
    requires !Get(Normalize(arg), "secret").Str?
    ensures var size := Get(Normalize(arg), "secretSize").n;
            var secret := Provision(arg, randomBytes, qrImage).value.secret;
            && secret == Base32.Unpadded(randomBytes(size))
            && '=' !in secret
            && |secret| == (8 * size + 4) / 5
            && |secret| >= 13
            && forall i :: 0 <= i < |secret| ==> secret[i] in Base32.Alphabet
  {
    var size := Get(Normalize(arg), "secretSize").n;
    assert |randomBytes(size)| == size;
    Base32.UnpaddedShape(randomBytes(size));
    RemoveAllMembers(Base32.Encode(randomBytes(size)), '=');
  }

  /** Where a parameter key stands in the fixed order of the URI. */
  function Rank(key: string): nat {
    if key == "issuer" then 0
    else if key == "algorithm" then 1
    else if key == "digits" then 2
    else if key == "counter" then 3
    else 4
  }

  predicate RankedBelow(ps: seq<(string, string)>, bound: nat) {
    forall k :: 0 <= k < |ps| ==> Rank(ps[k].0) < bound
  }

  predicate RankedFrom(ps: seq<(string, string)>, bound: nat) {
    forall k :: 0 <= k < |ps| ==> bound <= Rank(ps[k].0)
  }

  predicate InRankOrder(ps: seq<(string, string)>) {
    forall i, j :: 0 <= i < j < |ps| ==> Rank(ps[i].0) < Rank(ps[j].0)
  }

  /** Two lists in rank order, the first entirely below the second, stay in rank order when joined. */
  lemma RankOrderConcat(x: seq<(string, string)>, y: seq<(string, string)>, bound: nat)
    requires InRankOrder(x) && InRankOrder(y) && RankedBelow(x, bound) && RankedFrom(y, bound)
    ensures InRankOrder(x + y)
  {
    forall i, j | 0 <= i < j < |x + y| ensures Rank((x + y)[i].0) < Rank((x + y)[j].0) {
      if j < |x| {
        assert (x + y)[i] == x[i] && (x + y)[j] == x[j];
      } else if i < |x| {
        assert (x + y)[i] == x[i] && (x + y)[j] == y[j - |x|];
      } else {
        assert (x + y)[i] == y[i - |x|] && (x + y)[j] == y[j - |x|];
      }
    }
  }

  /** Each of the four parts of the parameter list is empty or a single parameter of its own key. */
  lemma PartShapes(spec: Props)
    ensures |IssuerParam(spec)| <= 1 && forall k :: 0 <= k < |IssuerParam(spec)| ==> IssuerParam(spec)[k].0 == "issuer"
    ensures |AlgorithmParam(spec)| <= 1 && forall k :: 0 <= k < |AlgorithmParam(spec)| ==> AlgorithmParam(spec)[k].0 == "algorithm"
    ensures |DigitsParam(spec)| <= 1 && forall k :: 0 <= k < |DigitsParam(spec)| ==> DigitsParam(spec)[k].0 == "digits"
    ensures |StepParam(spec)| <= 1
    ensures forall k :: 0 <= k < |StepParam(spec)| ==> StepParam(spec)[k].0 == "counter" || StepParam(spec)[k].0 == "period"
  {
  }

  /** The parameters are at most four, each keyed issuer, algorithm, digits, counter or period. */
  lemma ParamKeys(spec: Props)
    ensures |Params(spec)| <= 4
    ensures forall p :: p in Params(spec) ==> p.0 in ["issuer", "algorithm", "digits", "counter", "period"]
  {
    var i, a, d, s := IssuerParam(spec), AlgorithmParam(spec), DigitsParam(spec), StepParam(spec);
    PartShapes(spec);
    assert Params(spec) == i + a + d + s;
    forall p: (string, string) | p in i + a + d + s ensures p.0 in ["issuer", "algorithm", "digits", "counter", "period"] {
      assert p in i || p in a || p in d || p in s;
    }
  }

  /**
   * The parameters always come in the order issuer, algorithm, digits, then
   * counter or period, each at most once. That counter and period never
   * both appear is CounterXorPeriod.
   */
  lemma ParamsInOrder(spec: Props)
    ensures InRankOrder(Params(spec))
  {
    var i, a, d, s := IssuerParam(spec), AlgorithmParam(spec), DigitsParam(spec), StepParam(spec);
    PartShapes(spec);
    assert Params(spec) == i + a + d + s;
    RankOrderConcat(i, a, 1);
    RankOrderConcat(i + a, d, 2);
    RankOrderConcat(i + a + d, s, 3);
  }

  /** `&issuer=` carries the trimmed issuer exactly when the (resolved) issuer is text. */
  lemma IssuerParamIff(spec: Props, value: string)
    ensures ("issuer", value) in Params(spec) <==> Get(spec, "issuer").Str? && value == Trim(Get(spec, "issuer").s)
  {
  }

  /** `&algorithm=` appears exactly for SHA1, SHA256 and SHA512; any other algorithm is left out. */
  lemma AlgorithmParamIff(spec: Props, algorithm: string)
    ensures ("algorithm", algorithm) in Params(spec) <==>
              Get(spec, "algorithm") == Str(algorithm) && algorithm in ["SHA1", "SHA256", "SHA512"]
  {
  }

  /** `&digits=` appears exactly when digits is a number. */
  lemma DigitsParamIff(spec: Props, value: string)
    ensures ("digits", value) in Params(spec) <==>
              Get(spec, "digits").Num? && value == NumberToString(Get(spec, "digits").n)
  {
  }

  /** An unlisted algorithm never makes `register` throw: validation does not look at it. */
  lemma AlgorithmNeverThrows(spec: Props, algorithm: JsVal)
    ensures Validate(spec["algorithm" := algorithm]) == Validate(spec)
  {
    assert forall k :: k != "algorithm" ==> Get(spec["algorithm" := algorithm], k) == Get(spec, k);
  }

  /**
   * hotp always carries `&counter=` and never `&period=`; totp never carries
   * `&counter=`, and carries `&period=` exactly when period is a number.
   */
  lemma CounterXorPeriod(spec: Props)
    ensures IsHotp(spec) && Get(spec, "counter").Num? ==>
              ("counter", NumberToString(Get(spec, "counter").n)) in Params(spec)
    ensures IsHotp(spec) ==> forall p :: p in Params(spec) ==> p.0 != "period"
    ensures !IsHotp(spec) ==> forall p :: p in Params(spec) ==> p.0 != "counter"
    ensures !IsHotp(spec) ==> ((exists v :: ("period", v) in Params(spec)) <==> Get(spec, "period").Num?)
  {
    if !IsHotp(spec) && Get(spec, "period").Num? {
      assert ("period", NumberToString(Get(spec, "period").n)) in Params(spec);
    }
  }

  /** A hotp spec that leaves the counter out gets the default counter 0 in its URI. */
  lemma HotpDefaultCounter(props: Props)
    requires "counter" !in props && Get(props, "type") == Str("hotp")
    ensures ("counter", "0") in Params(ResolveIssuerPrefix(Normalize(Obj(props))))
  {
    var spec := ResolveIssuerPrefix(Normalize(Obj(props)));
    assert Get(spec, "counter") == Num(0);
    assert NumberToString(0) == "0";
  }
}
