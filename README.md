# Settings loader of the wudi web application

This project models `config.py`, the configuration module of a small web
application. The module defines a `Settings` class. Each class attribute is one
environment variable lookup with a default, followed by a coercion: copy the
string, compare it lower-cased with `"true"`, split it on commas, or parse it
with `int()`. A module-level `settings` instance is built once when the module is
imported and is never changed.

In the model the process environment is a value, `Env = map<string, string>`,
and loading is the pure function `Config.Load(env)`. It returns a `Settings`
datatype with one field per class attribute. When `PORT` is set to something
`int()` refuses, it returns `Failure(InvalidPort(raw))` instead.

Modules:

- `Wrappers` (wrappers.dfy): `Option` and `Result`.
- `Coerce` (coerce.dfy): ASCII lower-casing and the boolean rule. Also
  `str.split(",")`, with `",".join` as its inverse.
- `IntLiteral` (intliteral.dfy): Python's base-10 `int()` on ASCII text, with
  `str()` of an integer as its inverse.
- `Config` (config.dfy): defaults, `os.getenv`,
  `Load`, `__repr__`, and the lemmas about loading.

`Load` fails with `ConfigError.InvalidPort(raw)`. This stands for the
`ValueError` that `int()` raises at config.py:17; config.py defines no error
class of its own.

## Model

| member | source | states |
|---|---|---|
| `Config.Getenv` | config.py:11 | `os.getenv(key, default)`: a set variable's raw value, else the default |
| `Config.GetenvOptional` | config.py:21 | `os.getenv(key)`: `None` exactly when the variable is unset, else its raw value |
| `Config.Load` | config.py:7-34 | Loading fails exactly when `PORT` is set and `int()` refuses its value. The error then carries that value. No other attribute can fail |
| `Config.LoadStringFields` | config.py:11-34 | Each string field is the raw variable when set. When unset it is its default: "wudi", "0.1.0", "0.0.0.0", "INFO", "templates", "unknown" |
| `Config.ParsedFlag` | config.py:13 | A boolean attribute is the "true" test on the raw value when the variable is set, and on the default when it is unset |
| `Config.LoadBoolFields` | config.py:13-31 | `debug` and `reload` are true exactly when the variable is set to some casing of "true". `health_check_enabled` is also true when the variable is unset |
| `Config.LoadSecretKey` | config.py:21 | `secret_key` is `None` exactly when unset. Otherwise it is the raw value, even an empty one |
| `Config.LoadAllowedHosts` | config.py:22 | Unset gives exactly `["*"]`. Otherwise: at least one host, none holding a comma, one more host than commas, and the hosts joined with "," are the raw value |
| `Config.DefaultHostsSplit` | config.py:22 | The default "*" splits to the single host "*" |
| `Config.LoadSeparatorPort` | config.py:17 | A PORT value that begins with one of the separators 0x1C to 0x1F makes loading fail, because `int()` does not skip them |
| `Config.LoadPort` | config.py:17 | Unset gives 8000. A value of ASCII digits gives its decimal value, and `str(n)` gives `n` for every integer. A value without any digit makes loading fail |
| `Config.LoadReadsOnlySettingsKeys` | config.py:7-34 | Two environments that agree on the twelve variables load to the same result. Loading depends on nothing else |
| `Config.LoadEmptyEnv` | config.py:11-34 | With no variable set, `Load` gives the record of all documented defaults |
| `Config.Repr` | config.py:36-37 | `__repr__` starts with "<Settings app_name=", ends with ">", and its length is that of the name, the version and the fixed text |
| `Config.FindMid` | config.py:37 | Finds the first " version=" in the text between the fixed head and the closing ">": every earlier position holds none, and one starts at the index found unless it is the end |
| `Config.NoEarlierMid` | config.py:37 | " version=" cannot start inside an app name that does not contain it, because its only space is its first character |
| `Config.ReprRoundTrip` | config.py:36-37 | If the app name does not contain " version=", the app name and version can be read back from the representation |
| `Config.ReprInjective` | config.py:36-37 | If neither app name contains " version=", equal representations mean equal app names and versions |
| `Config.ReprAmbiguous` | config.py:36-37 | Without that condition the representation is ambiguous: a name ending in " version=" plus text prints like a shorter name with that text moved into the version |
| `Coerce.LowerAscii` | config.py:13 | `.lower()` keeps the length and lowers each character on its own |
| `Coerce.ParseBool` | config.py:13 | `.lower() == "true"` holds exactly for the four-letter spellings t/T, r/R, u/U, e/E |
| `Coerce.ParseBoolExamples` | config.py:13 | "TRUE", "True" and "tRuE" are true. "", "1", "yes", " true", "false" and "truee" are false |
| `Coerce.SplitComma` | config.py:22 | `.split(",")` gives at least one piece and no piece holds a comma. There is one piece more than commas, and joining the pieces with "," gives back the input |
| `Coerce.SplitCommaFree` | config.py:22 | A value without a comma splits to itself as the only piece |
| `Coerce.SplitCommaAfter` | config.py:22 | A comma-free piece followed by a comma splits off in front of the split of the rest |
| `Coerce.SplitJoin` | config.py:22 | Splitting undoes joining, for every non-empty list of comma-free pieces |
| `Coerce.SplitCommaUnique` | config.py:22 | The split is the only non-empty comma-free list of pieces that joins back to the input |
| `Coerce.SplitCommaExamples` | config.py:22 | "*" gives ["*"], "a,b,c" gives ["a","b","c"] and "a,,b" gives ["a","","b"]. "" gives [""], and " a, b" keeps its spaces |
| `IntLiteral.StripLeading` | config.py:17 | The leading whitespace `int()` skips: the result is a suffix, everything dropped is whitespace, and the result does not start with whitespace |
| `IntLiteral.StripTrailing` | config.py:17 | The same for the trailing whitespace `int()` skips |
| `IntLiteral.StripUnpadded` | config.py:17 | A value that neither begins nor ends with whitespace is left alone by the stripping |
| `IntLiteral.RunDigits` | config.py:17 | The digits of a digit run with its underscores dropped: non-empty and all digits |
| `IntLiteral.DigitsAreRun` | config.py:17 | A non-empty string of digits is a digit run whose digits are itself |
| `IntLiteral.GroupedRun` | config.py:17 | Two digit groups joined by one underscore form a digit run whose digits are the two groups together |
| `IntLiteral.ParseDecimal` | config.py:17 | `int()` in base 10: whatever it accepts contains at least one digit of the input |
| `IntLiteral.ParseUnpadded` | config.py:17 | Without surrounding whitespace, `int()` is decided by the optional sign and the digit run alone |
| `IntLiteral.NoDigitRejected` | config.py:17 | A value with no digit, such as "not-a-number" or "", is refused |
| `IntLiteral.LeadingJunkRejected` | config.py:17 | A value whose first character is not padding, a sign or a digit is refused, whatever follows |
| `IntLiteral.SeparatorRejected` | config.py:17 | A value that begins with one of the separators 0x1C to 0x1F is refused: they are not padding for `int()` |
| `IntLiteral.DigitsAccepted` | config.py:17 | A non-empty string of ASCII digits parses to its decimal value, leading zeros included |
| `IntLiteral.PaddingIgnored` | config.py:17 | Whitespace around a literal does not change what `int()` makes of it |
| `IntLiteral.SignedDigitsAccepted` | config.py:17 | One "+" or "-" before a non-empty string of digits gives the decimal value, negated after "-" |
| `IntLiteral.UnderscoreGrouping` | config.py:17 | One underscore between two groups of digits does not change the parsed value |
| `IntLiteral.DigitChar` | config.py:17 | Building block of `str(n)`, the inverse used by `ParseShowInt` to state what `int()` accepts: the digit character for a value below 10 is a digit of that value |
| `IntLiteral.ShowNat` | config.py:17 | Defines `str(n)`, the inverse used by `ParseShowInt` to state what `int()` accepts. Its digits are non-empty, all digits, no leading zero, and their decimal value is `n` |
| `IntLiteral.ParseShowInt` | config.py:17 | `int(str(n)) == n` for every integer, negative ones included |
| `IntLiteral.DefaultPortLiteral` | config.py:17 | The default "8000" parses to 8000 |
| `IntLiteral.PaddedPortLiteral` | config.py:17 | "8000" with any whitespace around it parses to 8000 |
| `IntLiteral.ParseDecimalRejects` | config.py:17 | "not-a-number", "", "1__0", "_1", "1_", "- 1" and "8 0" are refused |

## Left out

- Reading the process environment (`os.getenv`) and evaluating the class body at import time. The environment is the `env` parameter of `Load`.
- The `settings` instance (config.py:41) is `Load` applied to the process environment. Nothing assigns to it or to the class attributes afterwards, so no state is modelled.
- Variable names are compared exactly. On Windows `os.getenv` ignores the case of names; that is not modelled.
- Coerce.LowerAscii: lowers ASCII letters only, where `str.lower()` is Unicode-aware. No non-ASCII character lowers to one of the letters of "true", so `ParseBool` agrees with the source on every input. The lower-cased string itself is not modelled outside ASCII.
- IntLiteral.ParseDecimal: accepts ASCII digits only, and treats only ASCII whitespace as padding. That whitespace is space and tab through carriage return. The separators 0x1C to 0x1F are refused, as `int()` refuses them. Python's `int()` also accepts Unicode decimal digits and Unicode whitespace, and the model refuses them.
- IntLiteral.ParseDecimal: has no limit on the number of digits. Recent CPython releases refuse literals longer than 4300 digits by default.
- The index route and the `uvicorn` entry point in main.py. They hand literal values to an external web framework and template engine.
- The health endpoint, the security headers and the `X-Process-Time` header checked by test_main.py. No source file implements them, so there is nothing to model.
