# passport-totp in Dafny

A model of the core of passport-totp, a Passport strategy for time-based one-time passwords. The model covers three parts:

- **Provisioning** (`lib/google-authenticator.js`, `register`). A registration spec, a string or an object, becomes a Google Authenticator registration: a base 32 secret, an `otpauth://` key URI and a QR image of that URI. Modules: `GoogleAuthenticator` and `GoogleAuthenticatorProperties`.
  - `Provision` is a declarative description of what `register` returns or throws.
  - `Register` is the source's step-by-step procedure. It validates with early throws, updates the spec copy in place and builds the URI by successive appends. It is proved to compute exactly `Provision`.
  - The lemmas state the promises of `register` about `Provision`.
- **The Passport adapter** (`lib/strategy.js`, modules `TotpStrategy` and `TotpStrategyProperties`).
  - The constructor is modelled as `Strategy.New`, which returns the new object or the thrown error. It covers the argument shuffling, the setup check and the layering of the options over the defaults.
  - `authenticate` covers another layer of per-request options, how the code is read, the default period, and the error/fail/success dispatch.
- **The example database** (`examples/two-factor/lib/database.js`, module `ExampleDatabase`). It holds the id allocator, a loop proved to return the least free positive id, and the key table, which is read and written in place.

Supporting modules:

- `Wrappers`: `Option` and `Result`.
- `JsValues`: the JavaScript values the core handles, and the pieces of JavaScript it depends on:
  - truthiness and `||`;
  - property reads, which give `undefined` for a missing property;
  - `Object.assign`;
  - `String.prototype.trim`, using the WhiteSpace and LineTerminator sets of ECMA-262;
  - `replace(/c/g, '')`;
  - the decimal rendering of integral numbers.
- `Base32`: the base 32 encoding of section 6 of RFC 4648. It stands in for the `thirty-two` package.

Inputs that the model takes as parameters:

- `randomBytes(n)` stands for `crypto.randomBytes(n)`. Its type promises exactly n bytes for a request of n.
- `qrImage(uri)` stands for `qr.imageSync(uri, {type: 'svg'})`.
- `lookup` stands for the `./utils` helper.
- `verify(code, key, window, period)` stands for notp's `totp.verify`.
- `runSetup(setup, req, options)` stands for the arguments the setup callback passes to `done`.

### Where the code departs from its own documentation (the model follows the code)

- **Unknown type.** The code means to throw a RangeError for an unknown `type` (lib/google-authenticator.js:109), but it throws a TypeError. The message expression `"...".O_TYPES.join(' or ')` reads a property of a string literal, which is `undefined`, and calling `.join` on that throws. `TypeListError` carries V8's text for this error.
- **Unsupported algorithm.** The doc comment says `algorithm`, when given, must be one of `SHA1`, `SHA256` or `SHA512` (lib/google-authenticator.js:54). The code does not reject any other string. It logs it and leaves it out of the URI (lib/google-authenticator.js:139-146). It is not a validation error.
- **hotp counter.** The default `counter: 0` (lib/google-authenticator.js:12) makes a hotp spec without a counter produce `&counter=0`. Only an explicit non-number counter throws (lib/google-authenticator.js:156).

## Model

| member | source | states |
|---|---|---|
| GoogleAuthenticator.Validate | lib/google-authenticator.js:91-110 | No error is thrown exactly when the name is a string that is non-blank after trimming, secretSize is a number in [8, 128], the type is totp or hotp, and a hotp spec has a numeric counter. Each failing check gives its own error: a non-string name the name TypeError, a blank name the RangeError, then secretSize's TypeError and RangeError, the type error and the counter error. Each check applies only when all earlier checks pass. |
| GoogleAuthenticator.ResolveIssuerPrefix | lib/google-authenticator.js:112-117 | Issuer/prefix cross-defaulting changes no field other than prefix and issuer. |
| GoogleAuthenticator.Query | lib/google-authenticator.js:135-161 | The appended parameters are empty exactly when there are none; otherwise they start with '&'. |
| GoogleAuthenticator.AssembleUri | lib/google-authenticator.js:133-161 | Building the URI by successive appends gives head + `Query(Params(spec))` when the counter check passes. It throws the counter TypeError when that check fails. |
| GoogleAuthenticator.Register | lib/google-authenticator.js:85-171 | The imperative `register` returns or throws exactly what `Provision` describes. |
| GoogleAuthenticatorProperties.StringSpecIsName | lib/google-authenticator.js:86-88 | `register(s)` behaves exactly as `register({name: s})`. |
| GoogleAuthenticatorProperties.DefaultsFillUnspecified | lib/google-authenticator.js:11-16 | A field the caller gives keeps the caller's value, even `undefined`. Any other field takes its default: counter 0, prefix true, secretSize 32, type 'totp', and `undefined` for the rest. |
| GoogleAuthenticatorProperties.NameRules | lib/google-authenticator.js:91-98 | A non-string name throws TypeError. A name that is empty after trimming throws RangeError. |
| GoogleAuthenticatorProperties.BlankNameRejected | lib/google-authenticator.js:95-98 | A name made only of white space is rejected with the RangeError. |
| GoogleAuthenticatorProperties.SecretSizeRules | lib/google-authenticator.js:100-106 | After a valid name, a non-number secretSize throws TypeError and a size outside [8, 128] throws RangeError. This holds even when a secret is supplied. |
| GoogleAuthenticatorProperties.UnknownTypeThrowsTypeError | lib/google-authenticator.js:108-110 | A type other than totp or hotp throws, so no record is produced, and the error thrown is a TypeError. |
| GoogleAuthenticatorProperties.HotpCounterRequired | lib/google-authenticator.js:152-157 | A hotp spec whose counter is not a number throws TypeError. |
| GoogleAuthenticatorProperties.SucceedsExactlyWhen | lib/google-authenticator.js:91-161 | A record is produced if and only if all the validations pass. |
| GoogleAuthenticatorProperties.IssuerPrefixResolution | lib/google-authenticator.js:112-117 | A string issuer with prefix true makes prefix equal the issuer. Otherwise a string prefix with issuer true makes issuer equal the prefix. In every other case nothing changes. |
| GoogleAuthenticatorProperties.UriLayout | lib/google-authenticator.js:119-163 | The URI is `otpauth://` + type + '/' + label + '?secret=' + secret + parameters. The parameters are empty or start with '&'; the label is trim(issuer) or trim(prefix) + ':' + trim(name), or just trim(name) when prefix is false. The returned secret is exactly the text between '?secret=' and the parameters. Neither the label nor a supplied secret is escaped, so the secret can be read back from the URI only when the label contains no `secret=` and a supplied secret contains no `&`. The record holds the resolved spec and the QR image of the URI. |
| GoogleAuthenticatorProperties.SuppliedSecretVerbatim | lib/google-authenticator.js:124-126 | A supplied string secret is returned unchanged. |
| GoogleAuthenticatorProperties.GeneratedSecretUnpadded | lib/google-authenticator.js:127-131 | A generated secret is the base 32 text of secretSize random bytes with '=' removed. It has no '=', only alphabet characters, and length ceil(8·size/5), so at least 13. |
| GoogleAuthenticatorProperties.ParamKeys | lib/google-authenticator.js:135-161 | There are at most four parameters, each keyed issuer, algorithm, digits, counter or period. |
| GoogleAuthenticatorProperties.ParamsInOrder | lib/google-authenticator.js:135-161 | Parameters always come in the order issuer, algorithm, digits, counter/period, each at most once. |
| GoogleAuthenticatorProperties.IssuerParamIff | lib/google-authenticator.js:135-137 | `&issuer=v` appears if and only if the issuer is a string and v is its trimmed value. |
| GoogleAuthenticatorProperties.AlgorithmParamIff | lib/google-authenticator.js:139-146 | `&algorithm=a` appears if and only if the algorithm is the string a and a is SHA1, SHA256 or SHA512. |
| GoogleAuthenticatorProperties.DigitsParamIff | lib/google-authenticator.js:148-150 | `&digits=v` appears if and only if digits is a number whose decimal text is v. |
| GoogleAuthenticatorProperties.AlgorithmNeverThrows | lib/google-authenticator.js:139-146 | The algorithm value never changes the validation outcome: an unlisted algorithm is omitted, not an error. |
| GoogleAuthenticatorProperties.CounterXorPeriod | lib/google-authenticator.js:152-161 | hotp carries `&counter=` and never `&period=`. totp never carries `&counter=`, and carries `&period=` if and only if period is a number. |
| GoogleAuthenticatorProperties.HotpDefaultCounter | lib/google-authenticator.js:152-154 | A hotp spec without a counter gets `&counter=0`. |
| Base32.EncodeGroup | lib/google-authenticator.js:128 | A group of 1 to 5 bytes encodes as 8 characters: ceil(8k/5) alphabet characters, then '=' padding. |
| Base32.Encode | lib/google-authenticator.js:128 | The padded encoding has 8·ceil(n/5) characters. |
| Base32.EncodeChars | lib/google-authenticator.js:128 | Every character of the padded encoding is from the alphabet or is '='. |
| Base32.UnpaddedGroup | lib/google-authenticator.js:128-130 | Stripping '=' from a group leaves exactly its data characters. |
| Base32.UnpaddedShape | lib/google-authenticator.js:128-130 | Stripping '=' from the encoding leaves ceil(8n/5) characters, all from the alphabet. |
| JsValues.Assign | lib/google-authenticator.js:90 | `Object.assign` takes the union of the keys, and a property the source has overrides the target's. |
| JsValues.Or | lib/strategy.js:95 | `a \|\| b` is a when a is truthy and b otherwise; it is truthy if and only if either operand is. |
| JsValues.TrimIsCore | lib/google-authenticator.js:95 | `trim` returns a contiguous slice. Everything before and after the slice is white space, and the slice neither starts nor ends with white space. |
| JsValues.TrimEmptyIffBlank | lib/google-authenticator.js:95-96 | The trimmed text is empty if and only if every character is white space. |
| JsValues.TrimIdempotent | lib/google-authenticator.js:95 | Trimming twice is the same as trimming once. |
| JsValues.RemoveAllMembers | lib/google-authenticator.js:130 | `replace(/=/g, '')` keeps exactly the characters other than '=' and never lengthens the text. |
| JsValues.Digits | lib/google-authenticator.js:149 | The decimal text of a number is non-empty, is all digits and has no leading zero. |
| JsValues.NumberRoundTrip | lib/google-authenticator.js:149 | Reading back the decimal text of an integral number gives the number. |
| JsValues.NumberToStringInjective | lib/google-authenticator.js:154 | Different numbers give different parameter texts. |
| TotpStrategy.Strategy.New | lib/strategy.js:61-77 | Construction throws "Invalid setup function" exactly when `Construct` does. Otherwise it yields a fresh strategy whose options, setup and name ('totp') are those of `Construct`. |
| TotpStrategy.Strategy.constructor | lib/strategy.js:74-76 | The fields `_options` and `_setup` are set, and so is `name` = 'totp'. |
| TotpStrategy.Strategy.EffectiveOptions | lib/strategy.js:94 | A per-request option overrides the stored option of the same name. |
| TotpStrategy.Strategy.Authenticate | lib/strategy.js:92-104 | The outcome is an error exactly when the setup's err is truthy, and the error is that err. A success always carries `req.user`. |
| TotpStrategy.SubmittedCode | lib/strategy.js:95 | The code is one of the two lookups, the body's whenever that is truthy. It is truthy if and only if the body lookup or the query lookup is truthy. |
| TotpStrategy.TimeStep | lib/strategy.js:97 | The time step is the callback's period or the default. The callback's period wins whenever it is defined. The step is undefined if and only if both are undefined. |
| TotpStrategy.Dispatch | lib/strategy.js:98-102 | The outcome is an error if and only if err is truthy, and that error carries err. It is a success if and only if err is falsy and verify accepts, and a success carries `req.user`. |
| TotpStrategyProperties.DispatchIgnoresVerifyOnError | lib/strategy.js:98 | When err is truthy, two different verify functions give the same outcome. |
| TotpStrategyProperties.FunctionFirstIsSetup | lib/strategy.js:62-66 | With a function first, that function becomes the setup. The second argument becomes the options when it is an object, otherwise `{}`. |
| TotpStrategyProperties.InvalidSetupThrows | lib/strategy.js:68-70 | Construction throws a TypeError if and only if neither argument order supplies a setup function. |
| TotpStrategyProperties.ConstructedOptions | lib/strategy.js:74-75 | `new Strategy(options, setup)` succeeds and stores the setup function it was given. The stored options are the defaults {codeField 'code', defaultPeriod 30, window 6} overlaid by the constructor options. |
| TotpStrategyProperties.OptionPrecedence | lib/strategy.js:94 | What `authenticate` sees is per-request over constructor over defaults. |
| TotpStrategyProperties.SetupErrorIgnoresVerify | lib/strategy.js:98 | A setup error gives `error(err)`, whatever verify would answer. |
| TotpStrategyProperties.VerifiedOutcome | lib/strategy.js:95-103 | Without a setup error, the outcome is `success(req.user)` if and only if verify accepts. Verify is given the submitted code, the key, the effective window, and the callback's period or else the effective default period. Otherwise the outcome is `fail()`. |
| TotpStrategyProperties.BodyCodeWins | lib/strategy.js:95 | When the body supplies a truthy code, the query does not matter. |
| TotpStrategyProperties.DefaultPeriodUsed | lib/strategy.js:9-13 | If neither the constructor nor the request sets `window` or `defaultPeriod`, and the setup gives no error and no period, the code is verified with window 6 and time step 30. Success follows exactly when verify accepts; otherwise the outcome is fail. |
| ExampleDatabase.Ids | examples/two-factor/lib/database.js:16 | `users.map(u => u.id)` keeps the order and the length. |
| ExampleDatabase.LeastFreeIdUnique | examples/two-factor/lib/database.js:15-25 | There is only one least free positive id. |
| ExampleDatabase.CoveredPrefixBound | examples/two-factor/lib/database.js:18-24 | If 1..n all occur among the ids, there are at least n users, which bounds the loop. |
| ExampleDatabase.Database.constructor | examples/two-factor/lib/database.js:8-13 | The table starts with bob (id 1) and joe (id 2) and no keys. |
| ExampleDatabase.Database.NextUserId | examples/two-factor/lib/database.js:15-25 | The loop returns an id that is at least 1, is not a user id, and has every id from 1 up to it taken. It never exceeds the number of users + 1. |
| ExampleDatabase.Database.FindKeyForUserId | examples/two-factor/lib/database.js:50-52 | The error is null. The key is the saved one, or `undefined` if none was saved. |
| ExampleDatabase.Database.SaveKeyForUserId | examples/two-factor/lib/database.js:54-57 | The error is null, and the table is the old one with this id mapped to the key. |
| ExampleDatabase.SaveThenFind | examples/two-factor/lib/database.js:50-57 | After a save, reading that id gives the saved key and every other id reads as before. |
| ExampleDatabase.SeededNextUserId | examples/two-factor/lib/database.js:8-25 | With the seeded users, the next id is 3. |

## Left out

- QR image generation (`qr.imageSync`) is a foreign library. It is the parameter `qrImage`, and the record keeps its result.
- `crypto.randomBytes` is random, so it is the parameter `randomBytes`. The `thirty-two` encoder is replaced by the RFC 4648 section 6 encoder in `Base32`.
- `decodeSecret` (lib/google-authenticator.js:173-175) only delegates to `thirty-two`'s decoder and is not modelled.
- `console.error` when an algorithm is dropped is a side effect only.
- `totp.verify` of notp and its HMAC/truncation arithmetic (RFC 4226, RFC 6238) are not in the repository. The model takes verify as a parameter and invents nothing about its window search.
- `lookup` of `./utils` is not part of this model. It is a parameter.
- The asynchronous callback plumbing is modelled as returned values. The setup callback is modelled by the arguments it passes to `done`: a setup that never calls `done`, or calls it twice, is not modelled.
- Passport's `Strategy` base class and `util.inherits` are left out. `error`, `fail` and `success` are the three cases of `Outcome`.
- `findUsers`, `findUser` and `getUserById` in database.js are thin wrappers over the foreign `@lumjs/finder` and are left out.
- The rest of the example app (server.js, routes.js, passport.js), lib/index.js and todo/modernize-tests.js are routing, re-exports and a package fragment.
- JavaScript numbers are modelled as mathematical integers. NaN, fractions, -0 and exponent notation in `'' + n` are not captured, so a NaN secretSize slipping past `size < 8 \|\| size > 128` is not represented.
- Strings are sequences of Unicode scalar values rather than UTF-16 code units.
- `Object.assign` copies nothing from non-object sources. A string source would contribute its index properties. Function objects with own properties are not modelled either.
- ExampleDatabase.FindKeyForUserId: ids are integers. JavaScript coerces `keys[id]` to a string property key, so `1` and `'1'` would share an entry; that is not captured.
- GoogleAuthenticator.Register: the returned `spec` is the resolved copy as a value. Aliasing between the record and the caller's object is not captured. It cannot happen here anyway, because `Object.assign` makes a fresh copy.
