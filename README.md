# Toolkit core in Dafny: database execution state, HTML builder, signed cookies

This project models three parts of a small PHP web toolkit and proves properties of them.

- **`Db` (db.dfy, module `Database`)**: the process-wide execution state of the database facade. It holds the connector, the connection, the dialect and the prefix. It also holds the current statement, the affected-row count, the last insert id, the last query, the last result, the last error, the one-shot `fail` flag and the append-only trace. `connect`, `connection`, `fail`, `trace`, `hit`, `execute` and `query` are modelled in two layers:
  - pure step functions on a `State` value (`ConnectStep`, `HitStep`, `QueryStep`, …). Their contracts state what each call does;
  - a `class Db` whose fields are the static fields of the PHP class. Each method is proved to take the object from `Snapshot()` to the state the matching step function gives.

  `DbConnector` and PDO are not modelled; what they produce is given as input:
  - a `Connector` value;
  - an `Attempt`: prepare failed, execute failed, or executed with a row count and an insert id;
  - the rows each fetch method returns.
- **`html` (html.dfy, module `Html`)**: `attr` for one attribute and for an attribute list, with the `foreach` loop kept as the method `RenderAttributes`. `tag`, with its `.=` appends kept as the method `BuildTag`. The element helpers `a`, `div`, `p`, `span`, `stylesheet`, `script`, `favicon`, `iframe`, `doctype`, `charset`, `canonical`, `shiv`, `description` and `keywords` are functions over the pure `Attributes` and `Tag` definitions. The PHP semantics they rely on live in php.dfy (module `Php`):
  - `empty()`;
  - string conversion by `.`;
  - `implode` and `explode`;
  - `array_merge` with string keys;
  - `|` on non-negative integers.
- **`cookie` (cookie.dfy, module `Cookies`)**: a `set` stores `sha1(value . salt) . '+' . value`, and `get` hands a value back only when that prefix still matches.
  - A `Signer` value holds the salt and the SHA-1 function. SHA-1 is modelled only as "some function returning 40 lower-case hex digits".
  - `Get` and `Exists` read a cookie map.
  - `class Cookie` holds `$_COOKIE` and the `setcookie()` calls made so far. Its `Set`, `Forever` and `Remove` methods update them.

Two consequences of the code are worth stating up front:

- **The `fail` flag stays armed after a throw.** `fail()` is documented at classes/db.php:86 as setting the exception mode "for the next query". The rethrow at classes/db.php:212, however, leaves `hit` before the trace entry (lines 217-221) and before the flag is reset to false (line 224). So an armed flag whose query fails stays armed: the next failing query throws as well, and neither query leaves a trace entry. `Database.ArmedFlagSurvivesThrow` proves this. `Database.FailIsOneShot` proves that the flag does last for one query only when that query succeeds.
- **Some values never read back.** A value that holds a `'+'` cannot be read back, because `parse` takes the text after the last `'+'` as the value (`Cookies.Signer.ParsePlus`). A value that is `''` or `'0'` reads back as null (`Cookies.Signer.ParseEmpty`). Because `str::split` trims each piece, a value with leading or trailing whitespace does not read back as itself either; the model's plain `explode` does not capture that case (see "## Left out").
- **A `forever` cookie expires.** `forever` is documented at lib/cookie.php:63 as "never expires", but it calls `set` with 2628000 minutes (line 75), so the cookie expires five years of 365 days after it is set (`Cookies.ForeverIsFiveYears`, `Cookies.Cookie.Forever`).

## Model

| member | source | states |
|---|---|---|
| Php.IsEmpty | classes/html.php:92 | PHP `empty()`: null, false, 0, '', '0' and the empty array, and nothing else |
| Php.ToStr | classes/html.php:93 | string conversion by `.`: null and false give '', true gives '1', an integer its decimal form, an array 'Array' |
| Php.DecimalValue | classes/html.php:93 | the number a string of digits denotes, the reference the decimal form is checked against |
| Php.NatToDecimal | classes/html.php:93 | the decimal form PHP prints for a natural number: only digits, no leading zero, and its digits denote the number |
| Php.IntToDecimal | classes/html.php:93 | the decimal form of an integer: the natural form for non-negatives; for negatives a '-' followed by digits without a leading zero denoting the magnitude |
| Php.EmptyString | lib/cookie.php:133 | `empty()` on a string: exactly '' and '0' |
| Php.DecimalCanonical | classes/html.php:93 | every digit string without a leading zero is the printed form of the number it denotes, so the form is unique |
| Php.BitOr | classes/db.php:256 | PHP's `\|` on non-negative integers, one binary digit at a time |
| Php.BitOrBits | classes/db.php:256 | a bit is set in `a \| b` exactly when it is set in `a` or in `b` |
| Php.BitOrZero | classes/db.php:256 | or'ing in 0 leaves a value unchanged |
| Php.JoinLength | classes/html.php:89 | `implode` of no pieces is '', and of pieces each at least n long is at least n long |
| Php.JoinExcludes | classes/html.php:89 | a character in neither the separator nor any piece is not in the imploded string |
| Php.Join | classes/html.php:89 | `implode($sep, $parts)`: the pieces in order with the separator between neighbours |
| Php.Explode | lib/cookie.php:128 | `explode` gives at least one piece and no piece holds the separator |
| Php.JoinExplode | lib/cookie.php:128 | imploding the pieces of an explode with the same separator gives back the string |
| Php.ExplodeWithoutSeparator | lib/cookie.php:128 | a string without the separator explodes into itself alone |
| Php.ExplodeAtSeparator | lib/cookie.php:128 | a separator after a separator-free prefix splits off exactly that prefix |
| Php.ExplodeHead | lib/cookie.php:128-129 | without a separator the first piece is the whole string; otherwise it is followed by the separator and the rest explodes into the remaining pieces |
| Php.ExplodeEnds | lib/cookie.php:128-130 | the first piece is a prefix of the string and the last piece a suffix |
| Php.Lookup | classes/html.php:105 | the value stored under a key, as reading `$array[$key]` gives it, or none |
| Php.Overlay | classes/html.php:105 | the defaults' keys stay in place and in order |
| Php.Merge | classes/html.php:105 | `array_merge` keeps every default key at its position, with the caller's keys after them |
| Php.LookupAppend | classes/html.php:105 | a key is found in the first part of a list when it is there, else in the second |
| Php.LookupOverlay | classes/html.php:105 | an overlaid key takes the caller's value when the caller has the key, else the default |
| Php.LookupAbsent | classes/html.php:105 | a caller key that is among the defaults is not appended a second time |
| Php.MergeLookup | classes/html.php:105 | after `array_merge`, a key has the caller's value when the caller gives one, else the default's |
| Php.Absent | classes/html.php:105 | the caller pairs `array_merge` appends: those whose key is not among the defaults, in the caller's order |
| Php.MergeNothing | classes/html.php:105 | merging no caller attributes changes nothing |
| Php.HasKeySnoc | classes/html.php:181 | the keys of a default list with one more pair are the old keys and the new one |
| Php.OverlaySnoc | classes/html.php:181 | one more default pair adds one overlaid pair at the end, with the caller's value when given |
| Php.LookupFound | classes/html.php:181 | a key that is found belongs to some entry, whose value is the one found |
| Html.Kept | classes/html.php:92 | the values `attr` keeps: every non-empty value, and the string '0' |
| Html.Attr | classes/html.php:92-93 | an attribute is dropped exactly when its value is empty and not '0' (null, false, 0, '' and the empty array); a kept one renders as `name="value"` |
| Html.Rendered | classes/html.php:83-89 | the pieces the `foreach` collects, one per kept pair, in the order of the pairs |
| Html.Piece | classes/html.php:85-87 | one pair adds at most one piece, none exactly when its value is dropped, and otherwise its rendered attribute |
| Html.RenderedLength | classes/html.php:83-89 | no more pieces than pairs, each at least `k=""` long |
| Html.RenderedAppend | classes/html.php:83-89 | the pieces of two lists in a row are the pieces of each, in order |
| Html.RenderedNone | classes/html.php:83-89 | nothing is rendered exactly when no value is kept |
| Html.RenderedAllKept | classes/html.php:83-89 | when every value is kept, piece i is pair i rendered: nothing dropped, nothing reordered |
| Html.RenderedOne | classes/html.php:85-87 | a one-pair list renders as that pair's piece |
| Html.DroppedPair | classes/html.php:85-87 | a pair whose value is dropped renders as if it were not in the list, wherever it stands |
| Html.Attributes | classes/html.php:83-89 | the string is '' exactly when no value is kept, and is never '0' |
| Html.RenderAttributes | classes/html.php:83-89 | the `foreach` loop, pushing each kept piece and imploding with ' ', yields `Attributes` |
| Html.AttributesFirst | classes/html.php:83-89 | a kept first pair comes first, followed by one space and the rest when the rest renders |
| Html.AttributesSkip | classes/html.php:83-89 | a dropped first pair leaves the rendering of the rest unchanged |
| Html.Single | classes/html.php:83-89 | a one-pair list renders that attribute, or nothing |
| Html.Opening | classes/html.php:61-64 | `<name`, then a space and the attributes unless they render empty |
| Html.Closing | classes/html.php:65-69 | `>content</name>` for non-null content, even '', and ' />' for null |
| Html.Tag | classes/html.php:59-72 | `tag()` as one expression: the opening with the attributes unless they render empty, then the content and closing tag, or ' />' for null content |
| Html.BuildTag | classes/html.php:59-72 | the appends of `tag` build exactly `Tag`: the name, a space and the attributes unless they render empty, then content and closing tag, or ' />' for null content |
| Html.SelfClosingTag | classes/html.php:59-72 | a null-content tag opens with its name and ends in ' />'; unless a name or value brings one, no '<' follows the first character, so there is no closing tag |
| Html.ClosedTag | classes/html.php:65-66 | a non-null content, even '', gives `>content</name>` at the end |
| Html.TagEnds | classes/html.php:59-72 | every tag opens with `<name` and ends with its closing part |
| Html.BareTag | classes/html.php:62-64 | when no attribute is kept, nothing stands between the name and the rest |
| Html.FirstAttributeTag | classes/html.php:62-64 | a kept first attribute follows the name after exactly one space |
| Html.RenderedAbsent | classes/html.php:181 | caller pairs under a key whose values are all dropped render the same whether `array_merge` appends them or not |
| Html.DroppedDefault | classes/html.php:181 | a default attribute whose merged value is dropped, and that no caller pair brings back, leaves the attribute string as if it were not a default |
| Html.DroppedDefaultPieces | classes/html.php:181 | the same, for the rendered pieces |
| Html.MergeOverOne | classes/html.php:105 | merging over a single default keeps that key first, with the caller's value when given |
| Html.A | classes/html.php:104-108 | an `a` tag, closed, whose content is the text or, when the text is empty, the href; the href (or the caller's override) is its first attribute when kept |
| Html.AHrefOnly | classes/html.php:104-108 | for a non-empty href, `a(href)` is `<a href="href">href</a>` |
| Html.Div | classes/html.php:134-136 | a `div` tag ending with its content and `</div>`, or ' />' for null |
| Html.P | classes/html.php:145-147 | a `p` tag ending with its content and `</p>`, or ' />' for null |
| Html.Span | classes/html.php:156-158 | a `span` tag ending with its content and `</span>`, or ' />' for null |
| Html.Stylesheet | classes/html.php:180-183 | a self-closing `link` tag |
| Html.StylesheetMedia | classes/html.php:180-183 | for a non-empty href and no caller attributes: rel, then href, then media only when kept |
| Html.StylesheetNoMedia | classes/html.php:180-183 | a null or otherwise dropped media, with no kept caller media, gives no `media` attribute whatever the other caller attributes: the link made without the media default |
| Html.StylesheetAttributes | classes/html.php:181 | for a non-empty href, the attribute string of the three default pairs |
| Html.Script | classes/html.php:193-196 | a `script` tag that always closes with `></script>`, since its content is '' and not null |
| Html.ScriptWithoutAsync | classes/html.php:193-196 | for a non-empty src, with a null async value and no caller attributes: `<script src="src"></script>` |
| Html.Favicon | classes/html.php:205-208 | a self-closing `link` tag |
| Html.FaviconOnly | classes/html.php:205-208 | for a non-empty href and no caller attributes: rel="shortcut icon", then href |
| Html.Iframe | classes/html.php:219-222 | an `iframe` tag ending with the placeholder as content |
| Html.Doctype | classes/html.php:229-231 | one markup declaration: starts with '<!', ends with '>', no other brackets |
| Html.Charset | classes/html.php:239-241 | for a non-empty charset, the hand-written string equals the meta tag the builder makes |
| Html.Canonical | classes/html.php:250-253 | a self-closing `link` tag |
| Html.CanonicalOnly | classes/html.php:250-253 | for a non-empty href and no caller attributes: href, then rel="canonical" |
| Html.Shiv | classes/html.php:260-265 | the conditional comment wraps the script tag the builder makes for the shiv's URL, each line ended by PHP_EOL |
| Html.Description | classes/html.php:274-277 | a self-closing `meta` tag |
| Html.DescriptionOnly | classes/html.php:274-277 | without caller attributes: name="description", then content only when kept |
| Html.Keywords | classes/html.php:286-289 | a self-closing `meta` tag |
| Html.KeywordsOnly | classes/html.php:286-289 | without caller attributes: name="keywords", then content only when kept |
| Html.NamedMeta | classes/html.php:274-289 | a meta tag with a name and an optional content |
| Html.TwoAttributes | classes/html.php:83-89 | two pairs, the first kept, render as the first and then the second only when kept |
| Html.TagWith | classes/html.php:62-64 | attributes that render non-empty follow the name after one space |
| Database.Armed | classes/db.php:212 | `Db::$fail == true`: PHP's loose comparison with true holds exactly for a non-empty flag |
| Database.ConnectStep | classes/db.php:62-74 | `connect` stores the connector, its type, its prefix and its connection; nothing else changes |
| Database.ConnectionStep | classes/db.php:81-83 | the stored connection when there is one, unchanged state; otherwise a `connect` with the default connector |
| Database.ConnectionOnce | classes/db.php:81-83 | a second `connection()` changes nothing and gives the same handle |
| Database.FailStep | classes/db.php:90-92 | only the flag changes, and it is armed exactly when the value is truthy |
| Database.TraceStep | classes/db.php:130-133 | the entry is appended, the earlier entries stay, nothing else changes |
| Database.Finish | classes/db.php:216-227 | the trace entry of the last query, bindings and error; the flag reset; true exactly when there is no error |
| Database.Caught | classes/db.php:203-214 | the error is stored with affected 0, no last id and the raw query; rethrown when armed, leaving trace and flag; otherwise false with one trace entry |
| Database.HitStep | classes/db.php:188-229 | success stores the statement, count, id and final SQL, clears the error, appends a trace entry and resets the flag; failure stores the error; an unarmed failure returns false with a trace entry; an armed one throws before trace and reset; true exactly on success |
| Database.HitTrace | classes/db.php:216-224 | a `hit` that returns adds exactly one trace entry and leaves the flag down; one that throws leaves the trace alone |
| Database.FailIsOneShot | classes/db.php:90-92 | after `fail()` and a successful query, the next failing query returns false |
| Database.ArmedFlagSurvivesThrow | classes/db.php:212 | an armed query that fails throws and leaves the flag armed: the next failing query throws too, and neither is traced |
| Database.ExecuteStep | classes/db.php:280-282 | `hit`'s boolean, which also becomes the last result; a throw leaves the last result alone |
| Database.MergeOptions | classes/db.php:241-248 | each absent option takes its default: no flag, fetchAll, Object, Collection |
| Database.MergeOptionsIsMerge | classes/db.php:241-248 | `MergeOptions` agrees key by key with `array_merge` of the defaults array and the given options |
| Database.ParamsArrayLookup | classes/db.php:248 | each option key of the parameters array reads the option given, or nothing |
| Database.DefaultsLookup | classes/db.php:241-246 | the four default options |
| Database.BaseFlag | classes/db.php:253 | the default flag: FETCH_ASSOC (2) when fetching arrays, FETCH_CLASS (8) otherwise |
| Database.ExtraFlag | classes/db.php:256 | the optional extra flag, 0 when absent |
| Database.FetchFlags | classes/db.php:253-256 | the default flag (FETCH_ASSOC for arrays, FETCH_CLASS otherwise) or'ed with the extra flag |
| Database.FetchFlagsBits | classes/db.php:253-256 | a bit of the fetch flags is set exactly when the default flag or the extra flag sets it |
| Database.FetchFlagsPlain | classes/db.php:256 | an absent or zero extra flag leaves the default flag alone |
| Database.Mode | classes/db.php:259-263 | `setFetchMode` gets the flags, plus the class name unless fetching arrays |
| Database.QueryStep | classes/db.php:239-271 | a throwing hit rethrows and a false hit returns false, both leaving the last result; a successful one sets the fetch mode and stores the fetched rows, raw or wrapped in the iterator class |
| Database.RunKeepsTrace | classes/db.php:130-133 | the trace is append-only over any sequence of calls |
| Database.ApplyKeepsTrace | classes/db.php:130-133 | no single call removes or rewrites a trace entry |
| Database.Db.constructor | classes/db.php:18-54 | all fields null, the flag false, the trace empty |
| Database.Db.Affected | classes/db.php:140-142 | `affected()`: the stored affected-row count |
| Database.Db.LastId | classes/db.php:149-151 | `lastId()`: the stored last insert id |
| Database.Db.LastQuery | classes/db.php:158-160 | `lastQuery()`: the stored last query |
| Database.Db.LastResult | classes/db.php:167-169 | `lastResult()`: the stored last result |
| Database.Db.LastError | classes/db.php:176-178 | `lastError()`: the stored last error |
| Database.Db.Trace | classes/db.php:131 | `trace()` without data: the whole trace |
| Database.Db.Connect | classes/db.php:62-74 | the object moves as `ConnectStep` says and returns the connector's connection |
| Database.Db.Connection | classes/db.php:81-83 | the object and the handle are what `ConnectionStep` gives |
| Database.Db.Fail | classes/db.php:90-92 | the object moves as `FailStep` says |
| Database.Db.Record | classes/db.php:130-133 | the object moves as `TraceStep` says |
| Database.Db.Hit | classes/db.php:188-229 | the object and the result are what `HitStep` gives |
| Database.Db.Catch | classes/db.php:203-214 | the object and the result are what `Caught` gives |
| Database.Db.Conclude | classes/db.php:216-227 | the object and the result are what `Finish` gives |
| Database.Db.Execute | classes/db.php:280-282 | the object and the result are what `ExecuteStep` gives |
| Database.Db.Query | classes/db.php:239-271 | the object and the result are what `QueryStep` gives |
| Database.Db.Fetch | classes/db.php:253-269 | sets the statement's fetch mode to `Mode(options)` and stores and returns the rows, raw or wrapped; nothing else changes |
| Cookies.Signer.Hash | lib/cookie.php:114-116 | a 40-character hex digest, which has no '+' and is never empty |
| Cookies.Signer.Signed | lib/cookie.php:47 | the stored string is the 40-character hash, a '+', then the value |
| Cookies.Signer.Parse | lib/cookie.php:125-140 | a value read back is non-empty, has no '+', the string ends with it and starts with exactly its hash followed by '+' (or, without any '+', is its own hash) |
| Cookies.Signer.SignedParts | lib/cookie.php:47 | a signed value without '+' explodes into the hash and the value |
| Cookies.Signer.ParseSigned | lib/cookie.php:125-140 | a signed value that is neither '' nor '0' and has no '+' reads back as itself |
| Cookies.Signer.ParseEmpty | lib/cookie.php:133 | the values '' and '0' never read back |
| Cookies.Signer.ParsePlus | lib/cookie.php:128-130 | a value holding '+' never reads back as itself |
| Cookies.Signer.ParseForged | lib/cookie.php:136 | any cookie with a '+' whose first piece is not the hash of its last piece is refused |
| Cookies.Signer.ParseWithoutPlus | lib/cookie.php:128-138 | a cookie without '+' reads back only when it is non-empty and its own hash |
| Cookies.Get | lib/cookie.php:92-96 | a null key gives the whole map; a missing or empty entry gives the default; any other entry is parsed |
| Cookies.Exists | lib/cookie.php:103-105 | a key exists exactly when it holds a non-empty entry that parses |
| Cookies.SetThenGet | lib/cookie.php:38-55 | after setting a value that is neither '' nor '0' and has no '+', reading the key gives it back and the key exists |
| Cookies.SetEmptyThenGet | lib/cookie.php:38-55 | after setting '' or '0', reading the key gives null whatever the default, and the key does not exist |
| Cookies.SetKeepsOthers | lib/cookie.php:50 | setting one key does not change what any other key reads |
| Cookies.RemoveThenGet | lib/cookie.php:156-159 | after removal the key reads as its default and does not exist; every other key reads as before |
| Cookies.Expiry | lib/cookie.php:41 | a positive number of minutes becomes a time that many minutes after now; any other value is kept as it is |
| Cookies.ForeverIsFiveYears | lib/cookie.php:74-76 | 2628000 minutes is five years of 365 days |
| Cookies.Cookie.constructor | lib/cookie.php:50 | the cookie map as given, with no `setcookie()` calls yet |
| Cookies.Cookie.Set | lib/cookie.php:38-55 | the key holds the signed value, one `setcookie()` call with that value and the computed expiry is recorded, and its result is returned |
| Cookies.Cookie.Forever | lib/cookie.php:74-76 | a `set` whose expiry is five years after now |
| Cookies.Cookie.Remove | lib/cookie.php:156-159 | the key is gone, and a `setcookie()` with value false and expiry -3600 is recorded |

## Left out

- Query builder (`DbQuery`), `table()` and the shortcut functions of classes/db.php:290-437: they assemble SQL and call `query`/`execute`. The SQL text is an input of the model.
- `DbConnector`: not part of this model. What it produces (type, prefix, connection) is the `Connector` input. A connector that fails to connect is not modelled.
- `type()`, `prefix()`, `escape()`: entries into `connection()` plus connector state. `escape` depends on the driver's `quote` and is left out.
- PDO: `prepare`, `execute`, `rowCount` and `lastInsertId` are replaced by the `Attempt` input. Exceptions become the `Thrown` result.
- Dynamic dispatch in `query()`: the fetch method call at classes/db.php:266 is read as PHP 5 reads it, as a call of the method named by `$options['method']` (PHP 7 and later group it as `($statement->$options)['method']()`). That method becomes the `methods` input, and the iterator object `new $iterator($results)` becomes the `Collection(name, rows)` value.
- Database.FetchFlags: the bitwise or is modelled for non-negative flags only. PHP's 64-bit integer width and negative flags are not modelled.
- The accessors `affected()`, `lastId()`, `lastQuery()`, `lastResult()`, `lastError()` and `trace()` without an argument are plain reads of fields (`Database.Db.Affected` and the others, with rows in the table). They carry no contract of their own.
- `trace($data)`: a trace entry is a record of query, bindings and error. Arbitrary trace data is not modelled.
- The static fields of `Db` are modelled as the fields of one `Db` object. No concurrency is modelled.
- `html::encode`, `decode`, `breaks` and `entities`: they need PHP's entity tables and regular expressions. `html::email` needs an obfuscation routine that is not part of this model. `html::img` needs `f::filename`, which is not part of this model.
- Html.Script: the value of the `async` attribute comes from `r($async, 'async')`. `r()` is not part of this model, so its result is a parameter.
- Floats and objects as attribute values and contents. An array is only its element count, and converts to "Array".
- Html.Shiv: PHP_EOL is taken as "\n".
- SHA-1 itself, `time()`, the `cookie.salt` config and `setcookie()`'s result: they become the `Signer`'s function, the `now` parameter, the `Signer`'s salt and the `delivered` parameter.
- Array cookie values (`a::json`): values are strings.
- Cookies.Signer.Parse: `str::split` is modelled as plain `explode` on '+'. Its trimming and its removal of empty pieces are not modelled, so Cookies.Signer.ParseSigned and Cookies.SetThenGet hold under that reading only: in the toolkit a value with leading or trailing whitespace also fails to read back.
- `a::get`, `a::first` and `a::last` are a map lookup and the first and last piece.
- lib/visitor.php, lib/validator/email.php, the tests and the examples: they are not part of the core.
